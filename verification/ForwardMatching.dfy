/** When remote forwarding meets its purpose: exactly which workloads keep the two tables agreed and
    the streams of each forward going to its own target, in every schedule. */
module ForwardMatching {
  import opened Wrappers
  import M = Messages
  import opened ForwardProtocol
  import S = ServerConnection

  // ---------------------------------------------------------------------------
  // Clashes of requests
  // ---------------------------------------------------------------------------

  /** The keys of the first `n` requests. */
  function KeysBefore(specs: seq<M.ForwardSpec>, n: nat): set<Key>
    requires n <= |specs|
  {
    set i | 0 <= i < n :: KeyOf(specs[i])
  }

  /** The server allows these keys and has room for all of them at once. */
  ghost predicate Fits(config: S.Config, keys: set<Key>) {
    |keys| <= config.maxForwards && forall k <- keys :: S.RemoteForwardAllowed(config, k)
  }

  /** Two different requests for one key, each of which its task comes to: what comes before them can
      all be granted. */
  ghost predicate KeyClash(config: S.Config, clients: map<ClientId, Client>, c: ClientId, i: nat, d: ClientId, j: nat) {
    && Asks(clients, c, i) && Asks(clients, d, j) && (c, i) != (d, j)
    && KeyOf(clients[c].specs[i]) == KeyOf(clients[d].specs[j])
    && Fits(config, KeysBefore(clients[c].specs, i) + KeysBefore(clients[d].specs, j))
  }

  /** Two different requests for one port, of which the first can be granted when the second one's task
      comes to it. A task that has come to its second request has had its first one granted, so both
      requests of one task must be grantable. */
  ghost predicate PortClash(config: S.Config, clients: map<ClientId, Client>, c: ClientId, i: nat, d: ClientId, j: nat) {
    && Asks(clients, c, i) && Asks(clients, d, j) && (c, i) != (d, j)
    && clients[c].specs[i].bindPort == clients[d].specs[j].bindPort
    && Fits(config, KeysBefore(clients[c].specs, i + 1) + KeysBefore(clients[d].specs, if c == d then j + 1 else j))
  }

  ghost predicate KeysApart(config: S.Config, clients: map<ClientId, Client>) {
    forall c, i: nat, d, j: nat :: !KeyClash(config, clients, c, i, d, j)
  }

  ghost predicate PortsApart(config: S.Config, clients: map<ClientId, Client>) {
    forall c, i: nat, d, j: nat :: !PortClash(config, clients, c, i, d, j)
  }

  lemma SameSpecsClash(config: S.Config, a: map<ClientId, Client>, b: map<ClientId, Client>)
    requires SameSpecs(a, b)
    ensures KeysApart(config, a) ==> KeysApart(config, b)
    ensures PortsApart(config, a) ==> PortsApart(config, b)
  {
    forall c, i: nat, d, j: nat
      ensures KeyClash(config, b, c, i, d, j) ==> KeyClash(config, a, c, i, d, j)
      ensures PortClash(config, b, c, i, d, j) ==> PortClash(config, a, c, i, d, j)
    {
    }
  }

  // ---------------------------------------------------------------------------
  // What is live fits
  // ---------------------------------------------------------------------------

  lemma SmallerSet<T>(a: set<T>, b: set<T>, x: T)
    requires a <= b && x in b && x !in a
    ensures |a| < |b|
  {
    SubsetSize(a + {x}, b);
  }

  lemma {:induction false} SubsetSize<T>(a: set<T>, b: set<T>)
    requires a <= b
    ensures |a| <= |b|
    decreases a
  {
    if a != {} {
      var x :| x in a;
      SubsetSize(a - {x}, b - {x});
    }
  }

  lemma SubsetFits(config: S.Config, a: set<Key>, b: set<Key>)
    requires a <= b && Fits(config, b)
    ensures Fits(config, a)
  {
    SubsetSize(a, b);
  }

  lemma LiveFits(config: S.Config, s: State, keys: set<Key>)
    requires S.ForwardsInv(config, s.forwards) && keys <= s.forwards.table.Keys
    ensures Fits(config, keys)
  {
    SubsetSize(keys, s.forwards.table.Keys);
  }

  lemma BeforeNext(specs: seq<M.ForwardSpec>, n: nat)
    requires n < |specs|
    ensures KeysBefore(specs, n + 1) == KeysBefore(specs, n) + {KeyOf(specs[n])}
  {
  }

  /** What a task has asked for before its current request is live. */
  lemma DoneIsLive(s: State, c: ClientId, n: nat)
    requires MutexInv(s) && DoneInv(s) && c in s.clients && n <= s.clients[c].next
    ensures KeysBefore(s.clients[c].specs, n) <= s.forwards.table.Keys
  {
    forall i | 0 <= i < n ensures KeyOf(s.clients[c].specs[i]) in s.forwards.table {
      assert Done(s.clients, c, i);
    }
  }

  /** So is what a task has asked for up to a live forward of its own. */
  lemma OwnedIsLive(s: State, k: Key)
    requires MutexInv(s) && DoneInv(s) && Owned(s, k) && k in s.forwards.table
    ensures var at := s.log.owner[k]; KeysBefore(s.clients[at.0].specs, at.1 + 1) <= s.forwards.table.Keys
  {
    var at := s.log.owner[k];
    DoneIsLive(s, at.0, at.1);
    BeforeNext(s.clients[at.0].specs, at.1);
  }

  /** Two tasks that have come to the same key. */
  lemma ReachedTwice(config: S.Config, s: State, c: ClientId, i: nat, d: ClientId, j: nat)
    requires Traced(config, s) && KeysApart(config, s.clients)
    requires Asks(s.clients, c, i) && i <= s.clients[c].next && Asks(s.clients, d, j) && j <= s.clients[d].next
    requires KeyOf(s.clients[c].specs[i]) == KeyOf(s.clients[d].specs[j])
    ensures (c, i) == (d, j)
  {
    DoneIsLive(s, c, i);
    DoneIsLive(s, d, j);
    LiveFits(config, s, KeysBefore(s.clients[c].specs, i) + KeysBefore(s.clients[d].specs, j));
    assert !KeyClash(config, s.clients, c, i, d, j);
  }

  lemma ReachedIsLive(s: State, d: ClientId, j: nat, granted: bool)
    requires MutexInv(s) && DoneInv(s) && Asks(s.clients, d, j) && j <= s.clients[d].next
    requires granted && j == s.clients[d].next ==> s.clients[d].Key() in s.forwards.table
    ensures KeysBefore(s.clients[d].specs, if granted then j + 1 else j) <= s.forwards.table.Keys
  {
    DoneIsLive(s, d, j);
    if granted {
      BeforeNext(s.clients[d].specs, j);
      assert j < s.clients[d].next ==> Done(s.clients, d, j);
    }
  }

  lemma PortsLive(config: S.Config, s: State, c: ClientId, i: nat, d: ClientId, j: nat)
    requires S.ForwardsInv(config, s.forwards) && PortsApart(config, s.clients)
    requires Asks(s.clients, c, i) && Asks(s.clients, d, j)
    requires s.clients[c].specs[i].bindPort == s.clients[d].specs[j].bindPort
    requires KeysBefore(s.clients[c].specs, i + 1) <= s.forwards.table.Keys
    requires KeysBefore(s.clients[d].specs, if c == d then j + 1 else j) <= s.forwards.table.Keys
    ensures (c, i) == (d, j)
  {
    LiveFits(config, s, KeysBefore(s.clients[c].specs, i + 1)
                        + KeysBefore(s.clients[d].specs, if c == d then j + 1 else j));
    assert !PortClash(config, s.clients, c, i, d, j);
  }

  /** A task that has come to the port of a live forward is the one that asked for it; if it is that
      forward's own task anyway, its request must be granted or be for the same key. */
  lemma ReachedPort(config: S.Config, s: State, k: Key, d: ClientId, j: nat)
    requires Traced(config, s) && PortsApart(config, s.clients) && k in s.forwards.table && k in s.log.owner
    requires Asks(s.clients, d, j) && j <= s.clients[d].next && s.clients[d].specs[j].bindPort == k.1
    requires s.log.owner[k].0 == d && j == s.clients[d].next ==> s.clients[d].Key() in s.forwards.table
    ensures s.log.owner[k] == (d, j)
  {
    assert Owned(s, k);
    var at := s.log.owner[k];
    OwnedIsLive(s, k);
    ReachedIsLive(s, d, j, at.0 == d);
    PortsLive(config, s, at.0, at.1, d, j);
  }

  // ---------------------------------------------------------------------------
  // Agreement without key clashes
  // ---------------------------------------------------------------------------

  /** The schedule leads to a state in which the tables do not agree. */
  ghost predicate Breaks(config: S.Config, s: State, schedule: seq<Step>) {
    var t := Exec(config, s, schedule);
    t.Some? && !Agreement(t.value)
  }

  /** So the key that a task gives up is not live, and no other task waits for it. */
  lemma GivenUpDead(config: S.Config, s: State, c: ClientId)
    requires Traced(config, s) && KeysApart(config, s.clients) && Enabled(s, RemoveEntry(c))
    ensures s.clients[c].Key() !in s.forwards.table
  {
    var key := s.clients[c].Key();
    if key in s.forwards.table {
      assert Owned(s, key);
      ReachedTwice(config, s, s.log.owner[key].0, s.log.owner[key].1, c, s.clients[c].next);
    }
  }

  lemma PendingElsewhere(config: S.Config, s: State, c: ClientId, d: ClientId)
    requires Traced(config, s) && KeysApart(config, s.clients) && c in s.clients && d in s.clients && d != c
    requires s.clients[c].Pending() && s.clients[d].Pending()
    ensures s.clients[d].Key() != s.clients[c].Key()
  {
    if s.clients[d].Key() == s.clients[c].Key() {
      ReachedTwice(config, s, d, s.clients[d].next, c, s.clients[c].next);
    }
  }

  lemma GivenUpAlone(config: S.Config, s: State, c: ClientId)
    requires Traced(config, s) && KeysApart(config, s.clients) && c in s.clients && s.clients[c].Pending()
    ensures s.clients[c].Key() !in PendingKeys(s.clients - {c})
  {
    forall d | d in (s.clients - {c}).Keys && s.clients[d].Pending()
      ensures s.clients[d].Key() != s.clients[c].Key()
    {
      PendingElsewhere(config, s, c, d);
    }
  }

  lemma AgreementStep(config: S.Config, s: State, a: Step)
    requires Traced(config, s) && Agreement(s) && KeysApart(config, s.clients) && Enabled(s, a)
    ensures Agreement(Next(config, s, a))
  {
    AgreementBreaksExactly(config, s, a);
    if a.RemoveEntry? {
      GivenUpDead(config, s, a.c);
      GivenUpAlone(config, s, a.c);
    }
  }

  lemma {:induction false} TablesAlwaysAgree(config: S.Config, s: State, schedule: seq<Step>)
    requires Traced(config, s) && Agreement(s) && KeysApart(config, s.clients)
    ensures !Breaks(config, s, schedule)
    decreases schedule
  {
    if schedule != [] && Enabled(s, schedule[0]) {
      TracedStep(config, s, schedule[0]);
      AgreementStep(config, s, schedule[0]);
      Frames(config, s, schedule[0]);
      SameSpecsClash(config, s.clients, Next(config, s, schedule[0]).clients);
      TablesAlwaysAgree(config, Next(config, s, schedule[0]), schedule[1..]);
    }
  }

  // ---------------------------------------------------------------------------
  // Routing without port clashes
  // ---------------------------------------------------------------------------

  /** What a look-up for the forward `k` gave is the spec whose request created it. */
  ghost predicate Matched(s: State, k: Key, found: Option<M.ForwardSpec>) {
    found.Some? && Own(s, k, found.value)
  }

  ghost predicate Found(s: State, k: Key) {
    Matched(s, k, FindByPort(s.table, k.1))
  }

  /** A stream of any live forward would be matched with its own spec. */
  ghost predicate Routed(s: State) {
    forall k <- s.forwards.table :: Found(s, k)
  }

  /** The schedule leads to a live forward that a look-up by its port would not match. */
  ghost predicate Misroutes(config: S.Config, s: State, schedule: seq<Step>) {
    var t := Exec(config, s, schedule);
    t.Some? && !Routed(t.value)
  }

  /** In the schedule a stream was looked up and not matched with its own spec. */
  ghost predicate Misdelivers(config: S.Config, s: State, schedule: seq<Step>) {
    var t := Exec(config, s, schedule);
    t.Some? && exists e <- t.value.log.served :: !Matched(t.value, e.0, e.1)
  }

  lemma {:induction false} FindInFront(table: Table, rest: Table, port: U16)
    requires FindByPort(table, port).Some?
    ensures FindByPort(table + rest, port) == FindByPort(table, port)
  {
    assert (table + rest)[0] == table[0];
    if table[0].bindPort != port {
      assert (table + rest)[1..] == table[1..] + rest;
      FindInFront(table[1..], rest, port);
    }
  }

  lemma FindSkips(head: M.ForwardSpec, rest: Table, port: U16)
    requires head.bindPort != port
    ensures FindByPort([head] + rest, port) == FindByPort(rest, port)
  {
    assert ([head] + rest)[1..] == rest;
  }

  lemma {:induction false} FindRetained(table: Table, key: Key, port: U16)
    requires FindByPort(table, port).Some? && KeyOf(FindByPort(table, port).value) != key
    ensures FindByPort(Retain(table, key), port) == FindByPort(table, port)
  {
    if table[0].bindPort != port {
      FindRetained(table[1..], key, port);
      if KeyOf(table[0]) != key {
        FindSkips(table[0], Retain(table[1..], key), port);
      } else {
        assert Retain(table, key) == Retain(table[1..], key);
      }
    }
  }

  /** A forward that was found stays found, unless a task takes that very entry out. */
  lemma StaysFound(config: S.Config, s: State, a: Step, k: Key)
    requires MutexInv(s) && FlightInv(s) && Enabled(s, a) && k in s.forwards.table && Found(s, k)
    requires a.RemoveEntry? ==> s.clients[a.c].Key() != k
    ensures k in Next(config, s, a).forwards.table && Found(Next(config, s, a), k)
  {
    OwnStays(config, s, a, k);
    Frames(config, s, a);
    if a.Register? {
      FindInFront(s.table, [s.clients[a.c].specs[s.clients[a.c].next]], k.1);
    } else if a.RemoveEntry? {
      FindRetained(s.table, s.clients[a.c].Key(), k.1);
    }
  }

  /** Without port clashes no task gives up the key of a live forward. */
  lemma NoneGivenUp(config: S.Config, s: State, k: Key, c: ClientId)
    requires Traced(config, s) && PortsApart(config, s.clients) && c in s.clients
    requires Asks(s.clients, c, s.clients[c].next) && s.clients[c].Key() == k
    requires s.clients[c].phase.Removing? || s.clients[c].phase.Reporting? || s.clients[c].phase.Failed?
    ensures k !in s.forwards.table
  {
    if k in s.forwards.table {
      assert Owned(s, k);
      ReachedPort(config, s, k, c, s.clients[c].next);
    }
  }

  /** The forward that the server has just granted is found. */
  lemma GrantFound(config: S.Config, s: State, k: Key)
    requires Traced(config, s) && PortsApart(config, s.clients) && k in s.forwards.table && Waiting(s)
    requires k in s.log.owner && s.log.owner[k] == (s.holder.value, s.clients[s.holder.value].next)
    ensures Found(s, k)
  {
    var c := s.holder.value;
    assert Owned(s, k);
    if k in s.log.removed {
      NoneGivenUp(config, s, k, s.log.removed[k]);
    }
    assert k in TableKeys(s.table);
    FindByPortFinds(s.table, k.1);
    var found := FindByPort(s.table, k.1).value;
    assert Entered(s.clients, found);
    var d, j: nat :| Reached(s.clients, d, j) && s.clients[d].specs[j] == found;
    ReachedPort(config, s, k, d, j);
  }

  lemma RoutedStep(config: S.Config, s: State, a: Step)
    requires Traced(config, s) && Routed(s) && PortsApart(config, s.clients) && Enabled(s, a)
    ensures Routed(Next(config, s, a))
  {
    var t := Next(config, s, a);
    TracedStep(config, s, a);
    Frames(config, s, a);
    SameSpecsClash(config, s.clients, t.clients);
    forall k | k in t.forwards.table
      ensures Found(t, k)
    {
      if k in s.forwards.table {
        if a.RemoveEntry? && s.clients[a.c].Key() == k {
          NoneGivenUp(config, s, k, a.c);
        }
        StaysFound(config, s, a, k);
      } else {
        TakeDecides(config, s);
        GrantFound(config, t, k);
      }
    }
  }

  /** Streams on their way belong to live forwards, and every look-up so far found the spec whose
      request created the stream's forward. */
  ghost predicate StreamsInv(s: State) {
    && (forall k <- s.incoming :: k in s.forwards.table)
    && (forall e <- s.log.served :: e.0 in s.forwards.table && Matched(s, e.0, e.1))
  }

  lemma LookUpShape(config: S.Config, s: State, i: nat)
    requires Enabled(s, LookUp(i))
    ensures var t, k := Next(config, s, LookUp(i)), s.incoming[i];
            && k in s.incoming && (forall x <- t.incoming :: x in s.incoming)
            && (forall e <- t.log.served :: e in s.log.served || e == (k, FindByPort(s.table, k.1)))
  {
  }

  lemma StaysMatched(config: S.Config, s: State, a: Step, k: Key, found: Option<M.ForwardSpec>)
    requires Traced(config, s) && Enabled(s, a) && k in s.forwards.table && Matched(s, k, found)
    ensures k in Next(config, s, a).forwards.table && Matched(Next(config, s, a), k, found)
  {
    OwnStays(config, s, a, k);
  }

  lemma StreamsLookUp(config: S.Config, s: State, i: nat)
    requires Traced(config, s) && Routed(s) && StreamsInv(s) && Enabled(s, LookUp(i))
    ensures StreamsInv(Next(config, s, LookUp(i)))
  {
    var t := Next(config, s, LookUp(i));
    LookUpShape(config, s, i);
    Frames(config, s, LookUp(i));
    assert Found(s, s.incoming[i]);
    forall e | e in t.log.served
      ensures e.0 in t.forwards.table && Matched(t, e.0, e.1)
    {
      StaysMatched(config, s, LookUp(i), e.0, e.1);
    }
  }

  lemma IncomingElsewhere(config: S.Config, s: State, a: Step, k: Key)
    requires Enabled(s, a) && !a.LookUp? && k in Next(config, s, a).incoming
    requires k in s.incoming ==> k in s.forwards.table
    ensures k in Next(config, s, a).forwards.table
  {
    Frames(config, s, a);
    if a.ServerTake? {
      TakeKeepsForwards(config, s);
    }
  }

  lemma StreamsElsewhere(config: S.Config, s: State, a: Step)
    requires Traced(config, s) && StreamsInv(s) && Enabled(s, a) && !a.LookUp?
    ensures StreamsInv(Next(config, s, a))
  {
    var t := Next(config, s, a);
    forall k | k in t.incoming ensures k in t.forwards.table {
      IncomingElsewhere(config, s, a, k);
    }
    forall e | e in t.log.served
      ensures e.0 in t.forwards.table && Matched(t, e.0, e.1)
    {
      Frames(config, s, a);
      StaysMatched(config, s, a, e.0, e.1);
    }
  }

  lemma StreamsStep(config: S.Config, s: State, a: Step)
    requires Traced(config, s) && Routed(s) && StreamsInv(s) && Enabled(s, a)
    ensures StreamsInv(Next(config, s, a))
  {
    if a.LookUp? {
      StreamsLookUp(config, s, a.i);
    } else {
      StreamsElsewhere(config, s, a);
    }
  }

  ghost predicate Sound(config: S.Config, s: State) {
    Traced(config, s) && Routed(s) && StreamsInv(s) && PortsApart(config, s.clients)
  }

  lemma SoundStep(config: S.Config, s: State, a: Step)
    requires Sound(config, s) && Enabled(s, a)
    ensures Sound(config, Next(config, s, a))
  {
    TracedStep(config, s, a);
    RoutedStep(config, s, a);
    StreamsStep(config, s, a);
    Frames(config, s, a);
    SameSpecsClash(config, s.clients, Next(config, s, a).clients);
  }

  lemma {:induction false} StreamsAlwaysFound(config: S.Config, s: State, schedule: seq<Step>)
    requires Sound(config, s)
    ensures var t := Exec(config, s, schedule); t.Some? ==> Sound(config, t.value)
    decreases schedule
  {
    if schedule != [] && Enabled(s, schedule[0]) {
      SoundStep(config, s, schedule[0]);
      StreamsAlwaysFound(config, Next(config, s, schedule[0]), schedule[1..]);
    }
  }

  // ---------------------------------------------------------------------------
  // Undisturbed turns
  // ---------------------------------------------------------------------------

  function Ask(c: ClientId): seq<Step> {
    [Register(c), Lock(c), SendRequest(c)]
  }

  function Answering(c: ClientId): seq<Step> {
    [ServerTake, ServerSend, ReceiveReply(c)]
  }

  function Turn(c: ClientId): seq<Step> {
    Ask(c) + Answering(c)
  }

  lemma {:induction false} ExecAppend(config: S.Config, s: State, a: seq<Step>, b: seq<Step>)
    requires Exec(config, s, a).Some?
    ensures Exec(config, s, a + b) == Exec(config, Exec(config, s, a).value, b)
    decreases a
  {
    if a == [] {
      assert a + b == b;
    } else {
      ExecAppend(config, Next(config, s, a[0]), a[1..], b);
      assert (a + b)[1..] == a[1..] + b;
    }
  }

  lemma ExecThree(config: S.Config, s0: State, a: Step, s1: State, b: Step, s2: State, c: Step, s3: State)
    requires Enabled(s0, a) && s1 == Next(config, s0, a)
    requires Enabled(s1, b) && s2 == Next(config, s1, b)
    requires Enabled(s2, c) && s3 == Next(config, s2, c)
    ensures Exec(config, s0, [a, b, c]) == Some(s3)
  {
    assert [a, b, c][1..] == [b, c] && [b, c][1..] == [c] && [c][1..] == [];
    assert Exec(config, s3, []) == Some(s3);
    assert Exec(config, s2, [c]) == Exec(config, s3, []);
    assert Exec(config, s1, [b, c]) == Exec(config, s2, [c]);
  }

  /** No task holds the stream and nothing is in flight. */
  predicate Quiet(s: State) {
    s.holder.None? && s.outbox == [] && s.inbox == [] && s.answering.None?
  }

  predicate Ready(s: State, c: ClientId) {
    Quiet(s) && c in s.clients && s.clients[c].phase.Idle? && s.clients[c].next < |s.clients[c].specs|
  }

  /** The stream is the client's, its request is on the way, and the table has its spec. */
  ghost predicate Asked(s: State, t: State, c: ClientId)
    requires Ready(s, c)
  {
    var cl := s.clients[c];
    && t.clients == s.clients[c := cl.(phase := Awaiting)]
    && t.table == PushIfAbsent(s.table, cl.specs[cl.next])
    && t.forwards == s.forwards
    && t.holder == Some(c) && t.outbox == [M.TcpForwardRequest(cl.Key().0, cl.Key().1)]
    && t.inbox == [] && t.answering.None?
  }

  lemma AskResult(config: S.Config, s: State, c: ClientId) returns (t: State)
    requires Ready(s, c)
    ensures Exec(config, s, Ask(c)) == Some(t) && Asked(s, t, c)
  {
    var s1 := Next(config, s, Register(c));
    var s2 := Next(config, s1, Lock(c));
    t := Next(config, s2, SendRequest(c));
    ExecThree(config, s, Register(c), s1, Lock(c), s2, SendRequest(c), t);
  }

  /** After one undisturbed turn the client has registered its spec and knows the server's decision. */
  ghost predicate TurnTaken(config: S.Config, s: State, t: State, c: ClientId)
    requires Ready(s, c)
  {
    var cl := s.clients[c];
    var refused := S.Refused(config, s.forwards.table, cl.Key());
    && t.table == PushIfAbsent(s.table, cl.specs[cl.next])
    && t.forwards == S.Request(config, s.forwards, cl.Key())
    && t.outbox == [] && t.inbox == [] && t.answering.None?
    && (refused.None? ==> t.holder.None? && t.clients == s.clients[c := cl.(next := cl.next + 1)])
    && (refused.Some? ==> t.clients == s.clients[c := cl.(phase := Removing(config.wording(refused.value, cl.Key())))])
  }

  lemma AnswerResult(config: S.Config, s: State, asked: State, c: ClientId) returns (t: State)
    requires Ready(s, c) && Asked(s, asked, c)
    ensures Exec(config, asked, Answering(c)) == Some(t) && TurnTaken(config, s, t, c)
  {
    var key := s.clients[c].Key();
    var s1 := Take(config, asked);
    assert s1.answering == Some(S.Answer(config, s.forwards.table, key));
    assert s1.forwards == S.Request(config, s.forwards, key) && s1.outbox == [];
    var s2 := Next(config, s1, ServerSend);
    assert s2.inbox == [S.Answer(config, s.forwards.table, key)];
    t := Receive(s2, c);
    ReadTurn(config, s, s2, c);
    ExecThree(config, asked, ServerTake, s1, ServerSend, s2, ReceiveReply(c), t);
  }

  lemma ReadTurn(config: S.Config, s: State, s2: State, c: ClientId)
    requires Ready(s, c) && s2.clients == s.clients[c := s.clients[c].(phase := Awaiting)]
    requires s2.table == PushIfAbsent(s.table, s.clients[c].specs[s.clients[c].next])
    requires s2.forwards == S.Request(config, s.forwards, s.clients[c].Key())
    requires s2.outbox == [] && s2.answering.None?
    requires s2.inbox == [S.Answer(config, s.forwards.table, s.clients[c].Key())]
    ensures TurnTaken(config, s, Receive(s2, c), c)
  {
  }

  lemma TurnResult(config: S.Config, s: State, c: ClientId) returns (t: State)
    requires Ready(s, c)
    ensures Exec(config, s, Turn(c)) == Some(t) && TurnTaken(config, s, t, c)
  {
    var asked := AskResult(config, s, c);
    t := AnswerResult(config, s, asked, c);
    ExecAppend(config, s, Ask(c), Answering(c));
  }

  /** Some schedule that is one undisturbed turn. */
  lemma TakeTurn(config: S.Config, s: State, c: ClientId) returns (turn: seq<Step>, t: State)
    requires Ready(s, c)
    ensures Exec(config, s, turn) == Some(t) && TurnTaken(config, s, t, c)
  {
    turn := Turn(c);
    t := TurnResult(config, s, c);
  }

  /** The schedule leads to a live forward whose entry is gone. */
  ghost predicate Loses(config: S.Config, s: State, schedule: seq<Step>) {
    var t := Exec(config, s, schedule);
    t.Some? && exists k <- t.value.forwards.table :: k !in TableKeys(t.value.table)
  }

  lemma LosesBoth(config: S.Config, s: State, schedule: seq<Step>)
    requires Loses(config, s, schedule)
    ensures Breaks(config, s, schedule) && Misroutes(config, s, schedule)
  {
    var t := Exec(config, s, schedule).value;
    var k :| k in t.forwards.table && k !in TableKeys(t.table);
    assert k in LiveKeys(t);
    FindByPortFinds(t.table, k.1);
    assert !Found(t, k);
  }

  /** A client that gives up a key takes its entry out, though the key be live. */
  lemma RemoveResult(config: S.Config, s: State, c: ClientId) returns (t: State)
    requires c in s.clients && s.clients[c].phase.Removing?
    ensures Exec(config, s, [RemoveEntry(c)]) == Some(t)
    ensures t.forwards == s.forwards && s.clients[c].Key() !in TableKeys(t.table)
    ensures forall d <- s.clients :: d != c ==> d in t.clients && t.clients[d] == s.clients[d]
  {
    t := Next(config, s, RemoveEntry(c));
    assert [RemoveEntry(c)][1..] == [];
    RetainKeys(s.table, s.clients[c].Key());
  }

  lemma Then(config: S.Config, s: State, first: seq<Step>, t: State, rest: seq<Step>)
    requires Exec(config, s, first) == Some(t)
    ensures Exec(config, s, first + rest) == Exec(config, t, rest)
    ensures Loses(config, t, rest) ==> Loses(config, s, first + rest)
    ensures Breaks(config, t, rest) ==> Breaks(config, s, first + rest)
    ensures Misroutes(config, t, rest) ==> Misroutes(config, s, first + rest)
    ensures Misdelivers(config, t, rest) ==> Misdelivers(config, s, first + rest)
  {
    ExecAppend(config, s, first, rest);
  }

  /** A request for a live key is refused, and its entry then taken out. */
  lemma AskForLive(config: S.Config, s: State, c: ClientId) returns (schedule: seq<Step>)
    requires Ready(s, c) && s.clients[c].Key() in s.forwards.table
    ensures Loses(config, s, schedule)
  {
    var turn, t := TakeTurn(config, s, c);
    var u := RemoveResult(config, t, c);
    Then(config, s, turn, t, [RemoveEntry(c)]);
    schedule := turn + [RemoveEntry(c)];
  }

  lemma GrantedTurn(config: S.Config, s: State, t: State, c: ClientId)
    requires Ready(s, c) && TurnTaken(config, s, t, c)
    requires S.Refused(config, s.forwards.table, s.clients[c].Key()).None?
    ensures Quiet(t) && t.clients == s.clients[c := s.clients[c].(next := s.clients[c].next + 1)]
    ensures t.table == PushIfAbsent(s.table, s.clients[c].specs[s.clients[c].next])
    ensures t.forwards.table.Keys == s.forwards.table.Keys + {s.clients[c].Key()}
  {
  }

  lemma FittingGranted(config: S.Config, s: State, k: Key, keys: set<Key>)
    requires s.forwards.table.Keys <= keys && k in keys && k !in s.forwards.table && Fits(config, keys)
    ensures S.Refused(config, s.forwards.table, k).None?
  {
    SmallerSet(s.forwards.table.Keys, keys, k);
  }

  // ---------------------------------------------------------------------------
  // Where requests clash, some schedule fails
  // ---------------------------------------------------------------------------

  ghost predicate DoneKey(clients: map<ClientId, Client>, k: Key) {
    exists c, i: nat :: Done(clients, c, i) && KeyOf(clients[c].specs[i]) == k
  }

  /** Between turns: no task is in a request, each key asked for so far was granted, and none twice. */
  ghost predicate Between(s: State) {
    && Quiet(s) && (forall c <- s.clients :: s.clients[c].phase.Idle? && s.clients[c].next <= |s.clients[c].specs|)
    && (forall k :: k in s.forwards.table <==> DoneKey(s.clients, k))
    && TableKeys(s.table) <= s.forwards.table.Keys
    && (forall c, d, i: nat, j: nat ::
          (Done(s.clients, c, i) && Done(s.clients, d, j)
           && KeyOf(s.clients[c].specs[i]) == KeyOf(s.clients[d].specs[j])) ==> c == d && i == j)
  }

  lemma GrantedKeys(s: State, c: ClientId, clients: map<ClientId, Client>)
    requires Between(s) && Ready(s, c)
    requires clients == s.clients[c := s.clients[c].(next := s.clients[c].next + 1)]
    ensures forall d, i: nat :: Done(clients, d, i) <==> Done(s.clients, d, i) || (d == c && i == s.clients[c].next)
    ensures forall d <- clients :: clients[d].specs == s.clients[d].specs
  {
  }

  lemma GrantedBetween(s: State, t: State, c: ClientId)
    requires Between(s) && Ready(s, c) && s.clients[c].Key() !in s.forwards.table && Quiet(t)
    requires t.clients == s.clients[c := s.clients[c].(next := s.clients[c].next + 1)]
    requires TableKeys(t.table) <= t.forwards.table.Keys
    requires t.forwards.table.Keys == s.forwards.table.Keys + {s.clients[c].Key()}
    ensures Between(t)
  {
    var key, n := s.clients[c].Key(), s.clients[c].next;
    GrantedKeys(s, c, t.clients);
    forall d, i: nat | Done(s.clients, d, i) ensures KeyOf(s.clients[d].specs[i]) != key {
      assert DoneKey(s.clients, KeyOf(s.clients[d].specs[i]));
    }
    forall k ensures k in t.forwards.table <==> DoneKey(t.clients, k) {
      if k == key {
        assert Done(t.clients, c, n);
      } else if DoneKey(s.clients, k) {
        var d, i: nat :| Done(s.clients, d, i) && KeyOf(s.clients[d].specs[i]) == k;
        assert Done(t.clients, d, i);
      }
    }
  }

  lemma PushedKeys(table: Table, spec: M.ForwardSpec)
    ensures TableKeys(PushIfAbsent(table, spec)) <= TableKeys(table) + {KeyOf(spec)}
  {
  }

  /** The state is the one between turns in which `c` has come to its request `i`. */
  ghost predicate Brought(s: State, t: State, c: ClientId, i: nat, keys: set<Key>)
    requires c in s.clients
  {
    Between(t) && t.forwards.table.Keys <= keys && t.clients == s.clients[c := s.clients[c].(next := i)]
  }

  lemma GrantBrings(config: S.Config, s: State, turn: seq<Step>, t: State, c: ClientId, keys: set<Key>)
    requires Between(s) && Ready(s, c) && s.clients[c].Key() !in s.forwards.table && TurnTaken(config, s, t, c)
    requires Fits(config, keys) && s.forwards.table.Keys <= keys && s.clients[c].Key() in keys
    ensures Brought(s, t, c, s.clients[c].next + 1, keys)
  {
    FittingGranted(config, s, s.clients[c].Key(), keys);
    GrantedTurn(config, s, t, c);
    PushedKeys(s.table, s.clients[c].specs[s.clients[c].next]);
    GrantedBetween(s, t, c);
  }

  /** A client's next turn, which is granted or else takes out the entry of a live forward. */
  lemma BringNext(config: S.Config, s: State, c: ClientId, keys: set<Key>) returns (turn: seq<Step>, t: State)
    requires Between(s) && Ready(s, c) && Fits(config, keys) && s.forwards.table.Keys <= keys && s.clients[c].Key() in keys
    ensures Loses(config, s, turn)
         || (Exec(config, s, turn) == Some(t) && Brought(s, t, c, s.clients[c].next + 1, keys))
  {
    if s.clients[c].Key() in s.forwards.table {
      t := s;
      turn := AskForLive(config, s, c);
    } else {
      turn, t := TakeTurn(config, s, c);
      GrantBrings(config, s, turn, t, c, keys);
    }
  }

  lemma BroughtTwice(s: State, t: State, u: State, c: ClientId, i: nat, j: nat, keys: set<Key>)
    requires c in s.clients && Brought(s, t, c, i, keys) && Brought(t, u, c, j, keys)
    ensures Brought(s, u, c, j, keys)
  {
    assert u.clients == s.clients[c := s.clients[c].(next := j)];
  }

  lemma BroughtOn(config: S.Config, s: State, turn: seq<Step>, t: State, c: ClientId, i: nat, j: nat, keys: set<Key>,
                  rest: seq<Step>, u: State)
    requires c in s.clients && Exec(config, s, turn) == Some(t) && Brought(s, t, c, i, keys)
    requires Loses(config, t, rest) || (Exec(config, t, rest) == Some(u) && Brought(t, u, c, j, keys))
    ensures Loses(config, s, turn + rest) || (Exec(config, s, turn + rest) == Some(u) && Brought(s, u, c, j, keys))
  {
    Then(config, s, turn, t, rest);
    if !Loses(config, t, rest) {
      BroughtTwice(s, t, u, c, i, j, keys);
    }
  }

  /** A client whose keys fit can be brought to its request `i`, or some live forward loses its entry
      on the way. */
  lemma {:induction false} Bring(config: S.Config, s: State, c: ClientId, i: nat, keys: set<Key>)
    returns (schedule: seq<Step>, t: State)
    requires Between(s) && c in s.clients && s.clients[c].next <= i <= |s.clients[c].specs|
    requires Fits(config, keys) && s.forwards.table.Keys <= keys && KeysBefore(s.clients[c].specs, i) <= keys
    ensures Loses(config, s, schedule) || (Exec(config, s, schedule) == Some(t) && Brought(s, t, c, i, keys))
    decreases i - s.clients[c].next
  {
    if s.clients[c].next == i {
      schedule, t := [], s;
      assert s.clients == s.clients[c := s.clients[c].(next := i)];
    } else {
      schedule, t := BringNext(config, s, c, keys);
      if !Loses(config, s, schedule) {
        var turn, u, rest := schedule, t, [];
        rest, t := Bring(config, u, c, i, keys);
        BroughtOn(config, s, turn, u, c, s.clients[c].next + 1, i, keys, rest, t);
        schedule := turn + rest;
      }
    }
  }

  /** The same for two clients. */
  lemma BringBoth(config: S.Config, w: Workload, c: ClientId, i: nat, d: ClientId, j: nat, keys: set<Key>)
    returns (schedule: seq<Step>, t: State)
    requires c != d && Asks(Initial(w).clients, c, i) && Asks(Initial(w).clients, d, j) && Fits(config, keys)
    requires KeysBefore(w[c], i) <= keys && KeysBefore(w[d], j) <= keys
    ensures Loses(config, Initial(w), schedule)
         || (Exec(config, Initial(w), schedule) == Some(t) && Between(t) && t.forwards.table.Keys <= keys
             && t.clients == Initial(w).clients[c := Client(w[c], i, Idle)][d := Client(w[d], j, Idle)])
  {
    var first, u := Bring(config, Initial(w), c, i, keys);
    if Loses(config, Initial(w), first) {
      schedule, t := first, u;
    } else {
      var second;
      second, t := Bring(config, u, d, j, keys);
      Then(config, Initial(w), first, u, second);
      schedule := first + second;
    }
  }

  /** Two clients that are about to ask for one key. */
  lemma BreakTwo(config: S.Config, s: State, c: ClientId, d: ClientId) returns (schedule: seq<Step>)
    requires Ready(s, c) && Ready(s, d) && c != d && s.clients[c].Key() == s.clients[d].Key()
    ensures Breaks(config, s, schedule)
  {
    if S.Refused(config, s.forwards.table, s.clients[c].Key()).None? {
      schedule := LoseTwo(config, s, c, d);
      LosesBoth(config, s, schedule);
    } else {
      schedule := GiveUpPending(config, s, c, d);
    }
  }

  /** The first is granted, and the second takes its entry out. */
  lemma LoseTwo(config: S.Config, s: State, c: ClientId, d: ClientId) returns (schedule: seq<Step>)
    requires Ready(s, c) && Ready(s, d) && c != d && s.clients[c].Key() == s.clients[d].Key()
    requires S.Refused(config, s.forwards.table, s.clients[c].Key()).None?
    ensures Loses(config, s, schedule)
  {
    var turn, t := TakeTurn(config, s, c);
    GrantedTurn(config, s, t, c);
    var rest := AskForLive(config, t, d);
    Then(config, s, turn, t, rest);
    schedule := turn + rest;
  }

  lemma RegisterResult(config: S.Config, s: State, d: ClientId) returns (t: State)
    requires Ready(s, d)
    ensures Exec(config, s, [Register(d)]) == Some(t) && Quiet(t)
    ensures t.clients == s.clients[d := s.clients[d].(phase := Registered)] && t.forwards == s.forwards
    ensures t.table == PushIfAbsent(s.table, s.clients[d].specs[s.clients[d].next])
  {
    t := Next(config, s, Register(d));
    assert [Register(d)][1..] == [];
  }

  /** The first is refused, and takes out the entry that the second has registered. */
  lemma GiveUpPending(config: S.Config, s: State, c: ClientId, d: ClientId) returns (schedule: seq<Step>)
    requires Ready(s, c) && Ready(s, d) && c != d && s.clients[c].Key() == s.clients[d].Key()
    requires S.Refused(config, s.forwards.table, s.clients[c].Key()).Some?
    ensures Breaks(config, s, schedule)
  {
    var s1 := RegisterResult(config, s, d);
    var turn, s2 := TakeTurn(config, s1, c);
    var s3 := RemoveResult(config, s2, c);
    assert s3.clients[d].Pending() && s3.clients[d].Key() == s.clients[c].Key();
    assert s.clients[c].Key() in LiveKeys(s3);
    Then(config, s1, turn, s2, [RemoveEntry(c)]);
    Then(config, s, [Register(d)], s1, turn + [RemoveEntry(c)]);
    schedule := [Register(d)] + (turn + [RemoveEntry(c)]);
  }

  /** One client that asks for a key again. */
  lemma BreakOne(config: S.Config, w: Workload, c: ClientId, i: nat, j: nat) returns (schedule: seq<Step>)
    requires KeyClash(config, Initial(w).clients, c, i, c, j) && i < j
    ensures Breaks(config, Initial(w), schedule)
  {
    var keys := KeysBefore(w[c], i) + KeysBefore(w[c], j);
    var t;
    schedule, t := Bring(config, Initial(w), c, j, keys);
    if !Loses(config, Initial(w), schedule) {
      assert Done(t.clients, c, i);
      var rest := AskForLive(config, t, c);
      Then(config, Initial(w), schedule, t, rest);
      schedule := schedule + rest;
    }
    LosesBoth(config, Initial(w), schedule);
  }

  lemma BreakAgreement(config: S.Config, w: Workload, c: ClientId, i: nat, d: ClientId, j: nat)
    returns (schedule: seq<Step>)
    requires KeyClash(config, Initial(w).clients, c, i, d, j)
    ensures Breaks(config, Initial(w), schedule)
  {
    if c == d {
      assert KeysBefore(w[c], i) + KeysBefore(w[d], j) == KeysBefore(w[d], j) + KeysBefore(w[c], i);
      schedule := BreakOne(config, w, c, if i < j then i else j, if i < j then j else i);
    } else {
      var t;
      schedule, t := BringBoth(config, w, c, i, d, j, KeysBefore(w[c], i) + KeysBefore(w[d], j));
      if Loses(config, Initial(w), schedule) {
        LosesBoth(config, Initial(w), schedule);
      } else {
        var rest := BreakTwo(config, t, c, d);
        Then(config, Initial(w), schedule, t, rest);
        schedule := schedule + rest;
      }
    }
  }

  /** The tables agree in every state of every schedule exactly when no two requests for one key can
      both be come to. */
  lemma AgreementExactly(config: S.Config, w: Workload)
    ensures KeysApart(config, Initial(w).clients) <==> forall schedule :: !Breaks(config, Initial(w), schedule)
  {
    if KeysApart(config, Initial(w).clients) {
      InitialTraced(config, w);
      forall schedule ensures !Breaks(config, Initial(w), schedule) {
        TablesAlwaysAgree(config, Initial(w), schedule);
      }
    } else {
      var c, i: nat, d, j: nat :| KeyClash(config, Initial(w).clients, c, i, d, j);
      var schedule := BreakAgreement(config, w, c, i, d, j);
      assert Breaks(config, Initial(w), schedule);
    }
  }

  /** Two live forwards on one port are not both found. */
  lemma MisrouteGranted(config: S.Config, s: State, c: ClientId, i: nat, j: nat)
    requires Between(s) && Done(s.clients, c, i) && Done(s.clients, c, j) && i != j
    requires s.clients[c].specs[i].bindPort == s.clients[c].specs[j].bindPort
    ensures Misroutes(config, s, [])
  {
    var k, l := KeyOf(s.clients[c].specs[i]), KeyOf(s.clients[c].specs[j]);
    assert k != l;
    assert k in s.forwards.table && l in s.forwards.table;
    assert Exec(config, s, []) == Some(s);
    assert !(Found(s, k) && Found(s, l));
  }

  lemma MisrouteOne(config: S.Config, w: Workload, c: ClientId, i: nat, j: nat) returns (schedule: seq<Step>)
    requires PortClash(config, Initial(w).clients, c, i, c, j) && i < j
    ensures Misroutes(config, Initial(w), schedule)
  {
    var t;
    schedule, t := Bring(config, Initial(w), c, j + 1, KeysBefore(w[c], i + 1) + KeysBefore(w[c], j + 1));
    if Loses(config, Initial(w), schedule) {
      LosesBoth(config, Initial(w), schedule);
    } else {
      MisrouteGranted(config, t, c, i, j);
      Then(config, Initial(w), schedule, t, []);
      schedule := schedule + [];
    }
  }

  /** An entry that is there when another key on its port is registered hides that key. */
  lemma EarlierHides(table: Table, b: M.ForwardSpec, a: M.ForwardSpec)
    requires KeyOf(a) !in TableKeys(table) && KeyOf(a) != KeyOf(b) && a.bindPort == b.bindPort
    ensures var found := FindByPort(PushIfAbsent(PushIfAbsent(table, b), a), a.bindPort);
            found.Some? && KeyOf(found.value) != KeyOf(a)
  {
    var first := PushIfAbsent(table, b);
    FindByPortFinds(first, a.bindPort);
    FindInFront(first, [a], a.bindPort);
  }

  /** The second client has registered its spec when the first one asks for another key on its port. */
  lemma MisrouteRaced(config: S.Config, s: State, c: ClientId, d: ClientId) returns (schedule: seq<Step>)
    requires Between(s) && Ready(s, c) && Ready(s, d) && c != d
    requires s.clients[c].Key().1 == s.clients[d].Key().1 && s.clients[c].Key() != s.clients[d].Key()
    requires S.Refused(config, s.forwards.table, s.clients[c].Key()).None?
    ensures Misroutes(config, s, schedule)
  {
    var s1 := RegisterResult(config, s, d);
    var turn, s2 := TakeTurn(config, s1, c);
    GrantedTurn(config, s1, s2, c);
    var k := s.clients[c].Key();
    EarlierHides(s.table, s.clients[d].specs[s.clients[d].next], s.clients[c].specs[s.clients[c].next]);
    assert !Found(s2, k);
    Then(config, s, [Register(d)], s1, turn);
    schedule := [Register(d)] + turn;
  }

  lemma MisrouteTwo(config: S.Config, s: State, c: ClientId, d: ClientId, keys: set<Key>) returns (schedule: seq<Step>)
    requires Between(s) && Ready(s, c) && Ready(s, d) && c != d && s.clients[c].Key().1 == s.clients[d].Key().1
    requires Fits(config, keys) && s.forwards.table.Keys <= keys && s.clients[c].Key() in keys
    ensures Misroutes(config, s, schedule)
  {
    if s.clients[c].Key() in s.forwards.table {
      schedule := AskForLive(config, s, c);
      LosesBoth(config, s, schedule);
    } else {
      FittingGranted(config, s, s.clients[c].Key(), keys);
      if s.clients[c].Key() == s.clients[d].Key() {
        schedule := LoseTwo(config, s, c, d);
        LosesBoth(config, s, schedule);
      } else {
        schedule := MisrouteRaced(config, s, c, d);
      }
    }
  }

  lemma MisrouteStream(config: S.Config, w: Workload, c: ClientId, i: nat, d: ClientId, j: nat)
    returns (schedule: seq<Step>)
    requires PortClash(config, Initial(w).clients, c, i, d, j)
    ensures Misroutes(config, Initial(w), schedule)
  {
    if c == d {
      assert KeysBefore(w[c], i + 1) + KeysBefore(w[d], j + 1) == KeysBefore(w[d], j + 1) + KeysBefore(w[c], i + 1);
      schedule := MisrouteOne(config, w, c, if i < j then i else j, if i < j then j else i);
    } else {
      var keys := KeysBefore(w[c], i + 1) + KeysBefore(w[d], j);
      BeforeNext(w[c], i);
      var t;
      schedule, t := BringBoth(config, w, c, i, d, j, keys);
      if Loses(config, Initial(w), schedule) {
        LosesBoth(config, Initial(w), schedule);
      } else {
        var rest := MisrouteTwo(config, t, c, d, keys);
        Then(config, Initial(w), schedule, t, rest);
        schedule := schedule + rest;
      }
    }
  }

  /** A stream of a forward that would not be found may come at once. */
  lemma MisrouteSeen(config: S.Config, s: State, schedule: seq<Step>) returns (longer: seq<Step>)
    requires Misroutes(config, s, schedule)
    ensures Misdelivers(config, s, longer)
  {
    var t := Exec(config, s, schedule).value;
    var k :| k in t.forwards.table && !Found(t, k);
    var u := Next(config, t, OpenStream(k));
    var i := |t.incoming|;
    var v := Next(config, u, LookUp(i));
    var e := (k, FindByPort(t.table, k.1));
    assert v.log.served[|t.log.served|] == e;
    assert !Matched(v, k, e.1);
    assert [OpenStream(k), LookUp(i)][1..] == [LookUp(i)] && [LookUp(i)][1..] == [];
    assert Exec(config, v, []) == Some(v);
    assert Exec(config, u, [LookUp(i)]) == Some(v);
    assert Misdelivers(config, t, [OpenStream(k), LookUp(i)]);
    Then(config, s, schedule, t, [OpenStream(k), LookUp(i)]);
    longer := schedule + [OpenStream(k), LookUp(i)];
  }

  /** In every schedule every live forward is found by its port, and every stream looked up is matched
      with the spec whose request created its forward, exactly when no request can be granted while
      another one for its port is come to. */
  lemma RoutingExactly(config: S.Config, w: Workload)
    ensures PortsApart(config, Initial(w).clients) <==> forall schedule :: !Misroutes(config, Initial(w), schedule)
    ensures PortsApart(config, Initial(w).clients) <==> forall schedule :: !Misdelivers(config, Initial(w), schedule)
  {
    if PortsApart(config, Initial(w).clients) {
      InitialTraced(config, w);
      forall schedule ensures !Misroutes(config, Initial(w), schedule) && !Misdelivers(config, Initial(w), schedule) {
        StreamsAlwaysFound(config, Initial(w), schedule);
      }
    } else {
      var c, i: nat, d, j: nat :| PortClash(config, Initial(w).clients, c, i, d, j);
      var schedule := MisrouteStream(config, w, c, i, d, j);
      assert Misroutes(config, Initial(w), schedule);
      var longer := MisrouteSeen(config, Initial(w), schedule);
      assert Misdelivers(config, Initial(w), longer);
    }
  }

  // ---------------------------------------------------------------------------
  // Workloads whose keys all fit, and three runs
  // ---------------------------------------------------------------------------

  ghost predicate KeysOnce(clients: map<ClientId, Client>) {
    forall c, i: nat, d, j: nat ::
      (Asks(clients, c, i) && Asks(clients, d, j) && KeyOf(clients[c].specs[i]) == KeyOf(clients[d].specs[j]))
      ==> (c, i) == (d, j)
  }

  ghost predicate PortsOnce(clients: map<ClientId, Client>) {
    forall c, i: nat, d, j: nat ::
      (Asks(clients, c, i) && Asks(clients, d, j) && clients[c].specs[i].bindPort == clients[d].specs[j].bindPort)
      ==> (c, i) == (d, j)
  }

  ghost predicate AsksWithin(clients: map<ClientId, Client>, all: set<Key>) {
    forall c, i: nat :: Asks(clients, c, i) ==> KeyOf(clients[c].specs[i]) in all
  }

  lemma BeforeWithin(clients: map<ClientId, Client>, c: ClientId, n: nat, all: set<Key>)
    requires AsksWithin(clients, all) && c in clients && n <= |clients[c].specs|
    ensures KeysBefore(clients[c].specs, n) <= all
  {
    forall i | 0 <= i < n ensures KeyOf(clients[c].specs[i]) in all {
      assert Asks(clients, c, i);
    }
  }

  /** Where all keys asked for fit together, the conditions are that no key, and no port, is asked for
      twice; and these suffice anywhere. */
  lemma ApartWithRoom(config: S.Config, clients: map<ClientId, Client>, all: set<Key>)
    requires AsksWithin(clients, all)
    ensures KeysOnce(clients) ==> KeysApart(config, clients)
    ensures PortsOnce(clients) ==> PortsApart(config, clients)
    ensures Fits(config, all) && KeysApart(config, clients) ==> KeysOnce(clients)
    ensures Fits(config, all) && PortsApart(config, clients) ==> PortsOnce(clients)
  {
    if Fits(config, all) {
      forall c, i: nat, d, j: nat | Asks(clients, c, i) && Asks(clients, d, j) && (c, i) != (d, j)
        ensures KeyOf(clients[c].specs[i]) == KeyOf(clients[d].specs[j]) ==> KeyClash(config, clients, c, i, d, j)
        ensures clients[c].specs[i].bindPort == clients[d].specs[j].bindPort ==> PortClash(config, clients, c, i, d, j)
      {
        var j' := if c == d then j + 1 else j;
        BeforeWithin(clients, c, i, all);
        BeforeWithin(clients, c, i + 1, all);
        BeforeWithin(clients, d, j, all);
        BeforeWithin(clients, d, j', all);
        SubsetFits(config, KeysBefore(clients[c].specs, i) + KeysBefore(clients[d].specs, j), all);
        SubsetFits(config, KeysBefore(clients[c].specs, i + 1) + KeysBefore(clients[d].specs, j'), all);
      }
    }
  }

  /** So with room for all keys, schedules cannot fail exactly when no key, or no port, is asked for
      twice. */
  lemma WithRoom(config: S.Config, w: Workload, all: set<Key>)
    requires AsksWithin(Initial(w).clients, all) && Fits(config, all)
    ensures KeysOnce(Initial(w).clients) <==> forall schedule :: !Breaks(config, Initial(w), schedule)
    ensures PortsOnce(Initial(w).clients) <==> forall schedule :: !Misroutes(config, Initial(w), schedule)
  {
    ApartWithRoom(config, Initial(w).clients, all);
    AgreementExactly(config, w);
    RoutingExactly(config, w);
  }

  /** Two clients that start with one key clash whatever the server allows: if it refuses both, the
      first refusal takes out an entry that the other still waits on. */
  lemma SameFirstKey(config: S.Config, w: Workload, c: ClientId, d: ClientId)
    requires c in w && d in w && c != d && w[c] != [] && w[d] != [] && KeyOf(w[c][0]) == KeyOf(w[d][0])
    ensures KeyClash(config, Initial(w).clients, c, 0, d, 0)
    ensures exists schedule :: Breaks(config, Initial(w), schedule)
  {
    assert KeysBefore(w[c], 0) + KeysBefore(w[d], 0) == {};
    var schedule := BreakAgreement(config, w, c, 0, d, 0);
  }

  function Pair(a: M.ForwardSpec, b: M.ForwardSpec): Workload {
    map[0 := [a], 1 := [b]]
  }

  lemma PairClash(config: S.Config, a: M.ForwardSpec, b: M.ForwardSpec)
    requires a.bindPort == b.bindPort && config.maxForwards >= 1 && S.RemoteForwardAllowed(config, KeyOf(b))
    ensures PortClash(config, Initial(Pair(a, b)).clients, 1, 0, 0, 0)
  {
    BeforeNext([b], 0);
    assert KeysBefore([b], 1) + KeysBefore([a], 0) == {KeyOf(b)};
  }

  lemma FirstRun(config: S.Config, a: M.ForwardSpec, b: M.ForwardSpec) returns (t: State)
    requires S.RemoteForwardAllowed(config, KeyOf(a)) && config.maxForwards >= 1
    ensures Exec(config, Initial(Pair(a, b)), Turn(0)) == Some(t)
    ensures Ready(t, 1) && t.clients[1] == Client([b], 0, Idle)
    ensures t.table == [a] && t.forwards.table.Keys == {KeyOf(a)}
  {
    var s := Initial(Pair(a, b));
    t := TurnResult(config, s, 0);
    GrantedTurn(config, s, t, 0);
  }

  /** Two clients ask for one allowed key: the second is refused, takes the first one's entry out, and
      streams of the forward that the server still serves find nothing. */
  lemma RepeatedKeyBreaksAgreement(config: S.Config, spec: M.ForwardSpec)
    requires S.RemoteForwardAllowed(config, KeyOf(spec)) && config.maxForwards >= 1
    ensures var t := Exec(config, Initial(Pair(spec, spec)), Turn(0) + Turn(1) + [RemoveEntry(1)]);
            && t.Some? && !Agreement(t.value)
            && KeyOf(spec) in t.value.forwards.table && FindByPort(t.value.table, spec.bindPort) == None
  {
    var s1 := FirstRun(config, spec, spec);
    var s2 := TurnResult(config, s1, 1);
    assert s2.table == [spec] && s2.clients[1].phase.Removing? && s2.clients[1].Key() == KeyOf(spec);
    ExecAppend(config, Initial(Pair(spec, spec)), Turn(0), Turn(1));
    ExecAppend(config, Initial(Pair(spec, spec)), Turn(0) + Turn(1), [RemoveEntry(1)]);
    EmptiedTable(config, s2, spec);
  }

  lemma EmptiedTable(config: S.Config, s: State, spec: M.ForwardSpec)
    requires 1 in s.clients && s.clients[1].phase.Removing? && s.clients[1].Key() == KeyOf(spec)
    requires s.table == [spec] && KeyOf(spec) in s.forwards.table
    ensures var t := Exec(config, s, [RemoveEntry(1)]);
            && t.Some? && !Agreement(t.value)
            && KeyOf(spec) in t.value.forwards.table && FindByPort(t.value.table, spec.bindPort) == None
  {
    var t := Next(config, s, RemoveEntry(1));
    assert [RemoveEntry(1)][1..] == [];
    assert Retain([spec][1..], KeyOf(spec)) == [];
    assert t.table == [] && KeyOf(spec) in LiveKeys(t);
  }

  lemma SharedRun(config: S.Config, a: M.ForwardSpec, b: M.ForwardSpec) returns (t: State)
    requires KeyOf(a) != KeyOf(b) && config.maxForwards >= 2
    requires S.RemoteForwardAllowed(config, KeyOf(a)) && S.RemoteForwardAllowed(config, KeyOf(b))
    ensures Exec(config, Initial(Pair(a, b)), Turn(0) + Turn(1)) == Some(t)
    ensures t.forwards.table.Keys == {KeyOf(a), KeyOf(b)} && t.table == PushIfAbsent([a], b)
  {
    var s1 := FirstRun(config, a, b);
    FittingGranted(config, s1, KeyOf(b), {KeyOf(a), KeyOf(b)});
    t := TurnResult(config, s1, 1);
    GrantedTurn(config, s1, t, 1);
    ExecAppend(config, Initial(Pair(a, b)), Turn(0), Turn(1));
  }

  /** Distinct keys on one port: both forwards are live, and the later one's streams reach the
      earlier one's target. */
  lemma SharedPortMisroutes(config: S.Config, a: M.ForwardSpec, b: M.ForwardSpec)
    requires a.bindPort == b.bindPort && KeyOf(a) != KeyOf(b) && config.maxForwards >= 2
    requires S.RemoteForwardAllowed(config, KeyOf(a)) && S.RemoteForwardAllowed(config, KeyOf(b))
    ensures PortClash(config, Initial(Pair(a, b)).clients, 1, 0, 0, 0)
    ensures Misroutes(config, Initial(Pair(a, b)), Turn(0) + Turn(1))
    ensures var t := Exec(config, Initial(Pair(a, b)), Turn(0) + Turn(1)).value;
            && KeyOf(a) in t.forwards.table && KeyOf(b) in t.forwards.table
            && FindByPort(t.table, b.bindPort) == Some(a)
  {
    PairClash(config, a, b);
    var t := SharedRun(config, a, b);
    assert !Found(t, KeyOf(b));
  }

  /** The first client has registered its spec. */
  ghost predicate FirstRegistered(s: State, a: M.ForwardSpec, b: M.ForwardSpec) {
    && s.clients == map[0 := Client([a], 0, Registered), 1 := Client([b], 0, Idle)]
    && s.table == [a] && s.forwards.table == map[] && Quiet(s)
  }

  lemma RegisterFirst(config: S.Config, a: M.ForwardSpec, b: M.ForwardSpec) returns (s: State)
    ensures Exec(config, Initial(Pair(a, b)), [Register(0)]) == Some(s) && FirstRegistered(s, a, b)
  {
    s := RegisterResult(config, Initial(Pair(a, b)), 0);
  }

  lemma RacedTurn(config: S.Config, s: State, t: State, a: M.ForwardSpec, b: M.ForwardSpec)
    requires FirstRegistered(s, a, b) && TurnTaken(config, s, t, 1)
    requires config.maxForwards >= 1 && S.RemoteForwardAllowed(config, KeyOf(b))
    ensures Raced(t, a, b)
  {
    GrantedTurn(config, s, t, 1);
  }

  lemma RacedRun(config: S.Config, a: M.ForwardSpec, b: M.ForwardSpec) returns (t: State)
    requires config.maxForwards >= 1 && S.RemoteForwardAllowed(config, KeyOf(b))
    ensures Exec(config, Initial(Pair(a, b)), [Register(0)] + Turn(1)) == Some(t) && Raced(t, a, b)
  {
    var s := RegisterFirst(config, a, b);
    t := TurnResult(config, s, 1);
    RacedTurn(config, s, t, a, b);
    ExecAppend(config, Initial(Pair(a, b)), [Register(0)], Turn(1));
  }

  ghost predicate Raced(s: State, a: M.ForwardSpec, b: M.ForwardSpec) {
    && s.clients == map[0 := Client([a], 0, Registered), 1 := Client([b], 1, Idle)]
    && s.table == PushIfAbsent([a], b) && s.forwards.table.Keys == {KeyOf(b)} && s.holder.None?
  }

  lemma RacedAgrees(s: State, a: M.ForwardSpec, b: M.ForwardSpec)
    requires Raced(s, a, b)
    ensures Agreement(s)
  {
    assert s.clients[0].Pending() && s.clients[0].Key() == KeyOf(a);
    assert PendingKeys(s.clients) == {KeyOf(a)};
    PushKeys([a], b);
  }

  lemma RacedOwner(config: S.Config, s: State, a: M.ForwardSpec, b: M.ForwardSpec)
    requires Traced(config, s) && Raced(s, a, b)
    ensures s.log.owner[KeyOf(b)] == (1, 0) && Own(s, KeyOf(b), b)
  {
    assert Owned(s, KeyOf(b));
  }

  /** One client registers first, and another gets its own, different spec for the same port granted
      first: streams go to the first one's target although the tables agree, even with equal keys. */
  lemma RacedRegistrationMisroutes(config: S.Config, a: M.ForwardSpec, b: M.ForwardSpec)
    requires a.bindPort == b.bindPort && a != b && config.maxForwards >= 1 && S.RemoteForwardAllowed(config, KeyOf(b))
    ensures PortClash(config, Initial(Pair(a, b)).clients, 1, 0, 0, 0)
    ensures Misroutes(config, Initial(Pair(a, b)), [Register(0)] + Turn(1))
    ensures var t := Exec(config, Initial(Pair(a, b)), [Register(0)] + Turn(1)).value;
            && Agreement(t) && KeyOf(b) in t.forwards.table && Own(t, KeyOf(b), b)
            && FindByPort(t.table, b.bindPort) == Some(a)
  {
    PairClash(config, a, b);
    var t := RacedRun(config, a, b);
    InitialTraced(config, Pair(a, b));
    EveryRun(config, Initial(Pair(a, b)), [Register(0)] + Turn(1));
    RacedOwner(config, t, a, b);
    RacedAgrees(t, a, b);
    assert !Found(t, KeyOf(b));
  }
}
