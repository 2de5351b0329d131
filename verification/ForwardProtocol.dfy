/** Remote forwarding as two parties see it: any number of ControlMaster client tasks that share a
    forward table and, under a mutex, one control stream; and the server at the other end of it.
    Each step is what one task does between two awaits. */
module ForwardProtocol {
  import opened Wrappers
  import opened Messages
  import S = ServerConnection

  type Key = S.Key

  type ClientId = nat

  function KeyOf(spec: ForwardSpec): Key {
    (spec.bindAddr, spec.bindPort)
  }

  // ---------------------------------------------------------------------------
  // The shared table
  // ---------------------------------------------------------------------------

  type Table = seq<ForwardSpec>

  function TableKeys(table: Table): set<Key> {
    set spec <- table :: KeyOf(spec)
  }

  function PushIfAbsent(table: Table, spec: ForwardSpec): Table {
    if exists s <- table :: KeyOf(s) == KeyOf(spec) then table else table + [spec]
  }

  /** `retain`: drops the entries under `key`. */
  function Retain(table: Table, key: Key): Table {
    if table == [] then []
    else (if KeyOf(table[0]) != key then [table[0]] else []) + Retain(table[1..], key)
  }

  /** What an incoming stream is matched with: the first entry bound to the server's port. */
  function FindByPort(table: Table, port: U16): Option<ForwardSpec> {
    if table == [] then None
    else if table[0].bindPort == port then Some(table[0])
    else FindByPort(table[1..], port)
  }

  ghost predicate UniqueKeys(table: Table) {
    forall i, j :: 0 <= i < j < |table| ==> KeyOf(table[i]) != KeyOf(table[j])
  }

  lemma PushKeys(table: Table, spec: ForwardSpec)
    requires UniqueKeys(table)
    ensures UniqueKeys(PushIfAbsent(table, spec))
    ensures TableKeys(PushIfAbsent(table, spec)) == TableKeys(table) + {KeyOf(spec)}
    ensures forall s <- PushIfAbsent(table, spec) :: s in table || s == spec
  {
    var pushed := PushIfAbsent(table, spec);
    assert pushed != table ==> pushed[|table|] == spec;
    assert forall s <- table :: s in pushed;
  }

  lemma {:induction false} RetainEntries(table: Table, key: Key)
    ensures forall s :: s in Retain(table, key) <==> s in table && KeyOf(s) != key
  {
    if table != [] {
      RetainEntries(table[1..], key);
      assert table == [table[0]] + table[1..];
    }
  }

  lemma RetainNext(table: Table, i: nat, key: Key)
    requires i < |table|
    ensures Retain(table[i..], key)
         == (if KeyOf(table[i]) != key then [table[i]] else []) + Retain(table[i + 1..], key)
  {
    assert table[i..][1..] == table[i + 1..];
  }

  lemma {:induction false} RetainUnique(table: Table, key: Key)
    requires UniqueKeys(table)
    ensures UniqueKeys(Retain(table, key))
  {
    if table != [] {
      var tail := table[1..];
      assert forall i :: 0 <= i < |tail| ==> tail[i] == table[i + 1];
      RetainUnique(tail, key);
      RetainEntries(tail, key);
      var rest := Retain(tail, key);
      assert forall j :: 0 <= j < |rest| ==> rest[j] in tail;
    }
  }

  lemma RetainKeys(table: Table, key: Key)
    ensures TableKeys(Retain(table, key)) == TableKeys(table) - {key}
    ensures UniqueKeys(table) ==> UniqueKeys(Retain(table, key))
  {
    RetainEntries(table, key);
    if UniqueKeys(table) {
      RetainUnique(table, key);
    }
  }

  lemma {:induction false} FindByPortFinds(table: Table, port: U16)
    ensures match FindByPort(table, port)
            case Some(s) => s in table && s.bindPort == port
            case None => forall s <- table :: s.bindPort != port
  {
    if table != [] {
      FindByPortFinds(table[1..], port);
    }
  }

  /** An entry is found by its port exactly when no entry before it has the same port. */
  lemma {:induction false} FoundExactlyWhenFirst(table: Table, i: nat)
    requires UniqueKeys(table) && i < |table|
    ensures FindByPort(table, table[i].bindPort) == Some(table[i])
            <==> forall j :: 0 <= j < i ==> table[j].bindPort != table[i].bindPort
  {
    if i > 0 {
      var rest := table[1..];
      assert forall k :: 0 <= k < |rest| ==> rest[k] == table[k + 1];
      FoundExactlyWhenFirst(rest, i - 1);
      assert KeyOf(table[0]) != KeyOf(table[i]);
    }
  }

  /** The table as the client tasks share it; each method runs under the write lock, or the read
      lock for `Find`. */
  class SharedForwards {
    var specs: Table

    constructor ()
      ensures specs == []
    {
      specs := [];
    }

    method Register(spec: ForwardSpec)
      modifies this
      ensures specs == PushIfAbsent(old(specs), spec)
    {
      var present := false;
      for i := 0 to |specs|
        invariant specs == old(specs)
        invariant present <==> exists j :: 0 <= j < i && KeyOf(specs[j]) == KeyOf(spec)
      {
        if specs[i].bindAddr == spec.bindAddr && specs[i].bindPort == spec.bindPort {
          present := true;
        }
      }
      if !present {
        specs := specs + [spec];
      }
    }

    method Unregister(spec: ForwardSpec)
      modifies this
      ensures specs == Retain(old(specs), KeyOf(spec))
    {
      var before := specs;
      var kept := [];
      for i := 0 to |before|
        invariant kept + Retain(before[i..], KeyOf(spec)) == Retain(before, KeyOf(spec))
      {
        RetainNext(before, i, KeyOf(spec));
        if before[i].bindAddr != spec.bindAddr || before[i].bindPort != spec.bindPort {
          kept := kept + [before[i]];
        }
      }
      specs := kept;
    }

    method Find(port: U16) returns (r: Option<ForwardSpec>)
      ensures r == FindByPort(specs, port)
    {
      for i := 0 to |specs|
        invariant FindByPort(specs, port) == FindByPort(specs[i..], port)
      {
        if specs[i].bindPort == port {
          return Some(specs[i]);
        }
      }
      return None;
    }
  }

  // ---------------------------------------------------------------------------
  // States and steps
  // ---------------------------------------------------------------------------

  /** Where a client task stands with its current spec. From `Locked` to `Reporting` it holds the
      mutex of the control stream. */
  datatype Phase =
    | Idle
    | Registered
    | Locked
    | Awaiting
    | Removing(reason: string)
    | Reporting(reason: string)
    | Failed

  datatype Client = Client(specs: seq<ForwardSpec>, next: nat, phase: Phase)
  {
    function Key(): Key {
      if next < |specs| then KeyOf(specs[next]) else ("", 0)
    }

    predicate HoldsMutex() {
      phase.Locked? || phase.Awaiting? || phase.Removing? || phase.Reporting?
    }

    /** The spec is registered and its reply has not been processed. */
    predicate Pending() {
      phase.Registered? || phase.Locked? || phase.Awaiting? || phase.Removing?
    }
  }

  /** History: requests in the order sent, the server's decisions, the replies as the tasks received
      them, who asked for each live forward, who last removed each absent key, and the answered
      stream look-ups. */
  datatype Log = Log(
    asked: seq<(ClientId, nat)>,
    decided: seq<(Key, ControlMessage)>,
    heard: seq<(ClientId, nat, ControlMessage)>,
    owner: map<Key, (ClientId, nat)>,
    removed: map<Key, ClientId>,
    served: seq<(Key, Option<ForwardSpec>)>)

  /** `outbox` and `inbox` are the two directions of the control stream; `incoming` are the streams
      the server has opened and the client has not yet looked up. */
  datatype State = State(
    clients: map<ClientId, Client>,
    table: Table,
    holder: Option<ClientId>,
    outbox: seq<ControlMessage>,
    inbox: seq<ControlMessage>,
    forwards: S.Forwards,
    answering: Option<ControlMessage>,
    incoming: seq<Key>,
    log: Log)

  type Workload = map<ClientId, seq<ForwardSpec>>

  function Initial(w: Workload): State {
    State(map c <- w :: Client(w[c], 0, Idle), [], None, [], [], S.Forwards(map[], [], {}), None, [],
          Log([], [], [], map[], map[], []))
  }

  datatype Step =
    | Register(c: ClientId)
    | Lock(c: ClientId)
    | SendRequest(c: ClientId)
    | ReceiveReply(c: ClientId)
    | RemoveEntry(c: ClientId)
    | ReportError(c: ClientId)
    | ServerTake
    | ServerSend
    | OpenStream(key: Key)
    | LookUp(i: nat)

  predicate Enabled(s: State, a: Step) {
    match a
    case Register(c) => c in s.clients && s.clients[c].phase.Idle? && s.clients[c].next < |s.clients[c].specs|
    case Lock(c) => c in s.clients && s.clients[c].phase.Registered? && s.holder.None?
    case SendRequest(c) => c in s.clients && s.clients[c].phase.Locked?
    case ReceiveReply(c) => c in s.clients && s.clients[c].phase.Awaiting? && s.inbox != []
    case RemoveEntry(c) => c in s.clients && s.clients[c].phase.Removing?
    case ReportError(c) => c in s.clients && s.clients[c].phase.Reporting?
    case ServerTake => s.answering.None? && s.outbox != []
    case ServerSend => s.answering.Some?
    case OpenStream(key) => key in s.forwards.table
    case LookUp(i) => i < |s.incoming|
  }

  function With(s: State, c: ClientId, cl: Client): State {
    s.(clients := s.clients[c := cl])
  }

  function Receive(s: State, c: ClientId): State
    requires c in s.clients && s.inbox != []
  {
    var cl := s.clients[c];
    var t := s.(inbox := s.inbox[1..], log := s.log.(heard := s.log.heard + [(c, cl.next, s.inbox[0])]));
    match s.inbox[0]
    case TcpForwardConfirm(_) => With(t, c, cl.(next := cl.next + 1, phase := Idle)).(holder := None)
    case TcpForwardFailure(description) => With(t, c, cl.(phase := Removing(description)))
    case _ => With(t, c, cl.(phase := Failed)).(holder := None)
  }

  function Take(config: S.Config, s: State): State
    requires s.outbox != []
  {
    match s.outbox[0]
    case TcpForwardRequest(addr, port) =>
      var key := (addr, port);
      var answer := S.Answer(config, s.forwards.table, key);
      var owner := if answer.TcpForwardConfirm? && s.log.asked != []
                   then s.log.owner[key := s.log.asked[|s.log.asked| - 1]] else s.log.owner;
      s.(outbox := s.outbox[1..],
         forwards := S.Request(config, s.forwards, key),
         answering := Some(answer),
         log := s.log.(decided := s.log.decided + [(key, answer)], owner := owner))
    case _ => s.(outbox := s.outbox[1..])
  }

  function Next(config: S.Config, s: State, a: Step): State
    requires Enabled(s, a)
  {
    match a
    case Register(c) =>
      var cl := s.clients[c];
      With(s, c, cl.(phase := Registered))
        .(table := PushIfAbsent(s.table, cl.specs[cl.next]), log := s.log.(removed := s.log.removed - {cl.Key()}))
    case Lock(c) =>
      With(s, c, s.clients[c].(phase := Locked)).(holder := Some(c))
    case SendRequest(c) =>
      var cl := s.clients[c];
      With(s, c, cl.(phase := Awaiting))
        .(outbox := s.outbox + [TcpForwardRequest(cl.Key().0, cl.Key().1)],
          log := s.log.(asked := s.log.asked + [(c, cl.next)]))
    case ReceiveReply(c) => Receive(s, c)
    case RemoveEntry(c) =>
      var cl := s.clients[c];
      With(s, c, cl.(phase := Reporting(cl.phase.reason)))
        .(table := Retain(s.table, cl.Key()), log := s.log.(removed := s.log.removed[cl.Key() := c]))
    case ReportError(c) =>
      With(s, c, s.clients[c].(phase := Failed)).(holder := None)
    case ServerTake => Take(config, s)
    case ServerSend =>
      s.(inbox := s.inbox + [s.answering.value], answering := None)
    case OpenStream(key) =>
      s.(incoming := s.incoming + [key])
    case LookUp(i) =>
      var key := s.incoming[i];
      s.(incoming := s.incoming[..i] + s.incoming[i + 1..],
         log := s.log.(served := s.log.served + [(key, FindByPort(s.table, key.1))]))
  }

  /** Requests do not change: steps move tasks along their lists. */
  ghost predicate SameSpecs(a: map<ClientId, Client>, b: map<ClientId, Client>) {
    a.Keys == b.Keys && forall c <- a :: a[c].specs == b[c].specs
  }

  /** Which steps leave which parts alone. */
  lemma Frames(config: S.Config, s: State, a: Step)
    requires Enabled(s, a)
    ensures var t := Next(config, s, a);
            && (!a.ServerTake? ==> t.forwards == s.forwards && t.log.decided == s.log.decided && t.log.owner == s.log.owner)
            && (!a.Register? && !a.RemoveEntry? ==> t.table == s.table && t.log.removed == s.log.removed)
            && (!a.OpenStream? && !a.LookUp? ==> t.incoming == s.incoming && t.log.served == s.log.served)
            && SameSpecs(s.clients, t.clients)
  {
  }

  /** The state after a schedule, if each of its steps was possible when it came. */
  function Exec(config: S.Config, s: State, schedule: seq<Step>): Option<State>
    decreases schedule
  {
    if schedule == [] then Some(s)
    else if Enabled(s, schedule[0]) then Exec(config, Next(config, s, schedule[0]), schedule[1..])
    else None
  }

  // ---------------------------------------------------------------------------
  // The mutex, and what is in flight
  // ---------------------------------------------------------------------------

  ghost predicate MutexInv(s: State) {
    && (forall c <- s.clients :: s.clients[c].HoldsMutex() <==> s.holder == Some(c))
    && (s.holder.Some? ==> s.holder.value in s.clients)
    && (forall c <- s.clients :: s.clients[c].next <= |s.clients[c].specs|)
    && (forall c <- s.clients :: !s.clients[c].phase.Idle? ==> s.clients[c].next < |s.clients[c].specs|)
  }

  /** Some task is between sending its request and reading the reply. */
  predicate Waiting(s: State) {
    s.holder.Some? && s.holder.value in s.clients && s.clients[s.holder.value].phase.Awaiting?
  }

  function Outstanding(s: State): nat {
    |s.outbox| + (if s.answering.Some? then 1 else 0) + |s.inbox|
  }

  /** The reply on its way, if the server has decided. */
  function InFlightReply(s: State): Option<ControlMessage> {
    if s.answering.Some? then s.answering else if s.inbox != [] then Some(s.inbox[0]) else None
  }

  ghost predicate FlightInv(s: State) {
    && Outstanding(s) == (if Waiting(s) then 1 else 0)
    && (Waiting(s) ==>
          var key := s.clients[s.holder.value].Key();
          && (s.outbox != [] ==> s.outbox[0] == TcpForwardRequest(key.0, key.1))
          && (match InFlightReply(s)
              case None => true
              case Some(TcpForwardConfirm(port)) => port == key.1 && key in s.forwards.table
              case Some(TcpForwardFailure(_)) => true
              case Some(_) => false))
  }

  predicate ByClient(a: Step) {
    !a.ServerTake? && !a.ServerSend? && !a.OpenStream? && !a.LookUp?
  }

  lemma MutexKept(s: State, t: State, c: ClientId)
    requires MutexInv(s) && c in s.clients && c in t.clients && t.clients == s.clients[c := t.clients[c]]
    requires t.clients[c].next <= |t.clients[c].specs|
    requires t.clients[c].phase.Idle? || t.clients[c].next < |t.clients[c].specs|
    requires t.clients[c].HoldsMutex() <==> t.holder == Some(c)
    requires t.holder == s.holder || (s.holder == None && t.holder == Some(c)) || (s.holder == Some(c) && t.holder == None)
    ensures MutexInv(t)
  {
  }

  lemma MutexStep(config: S.Config, s: State, a: Step)
    requires MutexInv(s) && Enabled(s, a)
    ensures MutexInv(Next(config, s, a))
  {
    if ByClient(a) {
      MutexKept(s, Next(config, s, a), a.c);
    }
  }

  lemma FlightStep(config: S.Config, s: State, a: Step)
    requires MutexInv(s) && FlightInv(s) && Enabled(s, a)
    ensures FlightInv(Next(config, s, a))
  {
  }

  // ---------------------------------------------------------------------------
  // Requests, decisions and replies pair up
  // ---------------------------------------------------------------------------

  predicate IsAnswer(reply: ControlMessage, key: Key) {
    reply == TcpForwardConfirm(key.1) || reply.TcpForwardFailure?
  }

  ghost predicate RequestOf(clients: map<ClientId, Client>, at: (ClientId, nat), key: Key) {
    at.0 in clients && at.1 < |clients[at.0].specs| && KeyOf(clients[at.0].specs[at.1]) == key
  }

  /** The keys whose request was confirmed, in order. */
  ghost function Confirmed(decided: seq<(Key, ControlMessage)>): seq<Key> {
    if decided == [] then []
    else
      var last := decided[|decided| - 1];
      Confirmed(decided[..|decided| - 1]) + (if last.1.TcpForwardConfirm? then [last.0] else [])
  }

  /** How far each log has got, and what its last entry stands for. */
  ghost predicate CountInv(s: State) {
    && |s.log.heard| + Outstanding(s) == |s.log.asked|
    && |s.log.decided| == |s.log.heard| + (if InFlightReply(s).Some? then 1 else 0)
    && (Waiting(s) ==>
          s.log.asked != [] && s.log.asked[|s.log.asked| - 1] == (s.holder.value, s.clients[s.holder.value].next))
    && (InFlightReply(s).Some? ==> s.log.decided[|s.log.decided| - 1].1 == InFlightReply(s).value)
  }

  /** The n-th decision answers the n-th request, and the n-th reply read is that decision, read by
      the task that asked. */
  ghost predicate PairInv(clients: map<ClientId, Client>, log: Log) {
    && |log.heard| <= |log.decided| <= |log.asked|
    && (forall n :: 0 <= n < |log.heard| ==>
          log.heard[n] == (log.asked[n].0, log.asked[n].1, log.decided[n].1))
    && (forall n :: 0 <= n < |log.decided| ==>
          RequestOf(clients, log.asked[n], log.decided[n].0) && IsAnswer(log.decided[n].1, log.decided[n].0))
  }

  /** The forwards ever started are the confirmed requests. */
  ghost predicate SpawnInv(s: State) {
    s.forwards.spawned == Confirmed(s.log.decided)
  }

  ghost predicate HistoryInv(s: State) {
    CountInv(s) && PairInv(s.clients, s.log) && SpawnInv(s)
  }

  lemma CountStep(config: S.Config, s: State, a: Step)
    requires MutexInv(s) && FlightInv(s) && CountInv(s) && Enabled(s, a)
    ensures CountInv(Next(config, s, a))
  {
  }

  lemma SpawnTake(config: S.Config, s: State)
    requires SpawnInv(s) && s.outbox != []
    ensures SpawnInv(Take(config, s))
  {
    var t := Take(config, s);
    if t.log.decided != s.log.decided {
      assert t.log.decided[..|s.log.decided|] == s.log.decided;
    }
  }

  lemma SpawnStep(config: S.Config, s: State, a: Step)
    requires SpawnInv(s) && Enabled(s, a)
    ensures SpawnInv(Next(config, s, a))
  {
    if a.ServerTake? {
      SpawnTake(config, s);
    } else {
      Frames(config, s, a);
    }
  }

  lemma PairMove(clients: map<ClientId, Client>, clients': map<ClientId, Client>, log: Log)
    requires PairInv(clients, log)
    requires forall c <- clients :: c in clients' && clients'[c].specs == clients[c].specs
    ensures PairInv(clients', log)
  {
  }

  lemma PairReceive(s: State, c: ClientId)
    requires MutexInv(s) && FlightInv(s) && CountInv(s) && PairInv(s.clients, s.log)
    requires Enabled(s, ReceiveReply(c))
    ensures PairInv(Receive(s, c).clients, Receive(s, c).log)
  {
    assert s.holder == Some(c);
    var t := Receive(s, c);
    PairMove(s.clients, t.clients, s.log);
    assert t.log.heard == s.log.heard + [(c, s.clients[c].next, s.inbox[0])];
  }

  lemma PairTake(config: S.Config, s: State)
    requires MutexInv(s) && FlightInv(s) && CountInv(s) && PairInv(s.clients, s.log)
    requires Enabled(s, ServerTake)
    ensures PairInv(Take(config, s).clients, Take(config, s).log)
  {
    var t := Take(config, s);
    var key := s.clients[s.holder.value].Key();
    assert t.log.decided == s.log.decided + [(key, S.Answer(config, s.forwards.table, key))];
  }

  lemma PairElsewhere(config: S.Config, s: State, a: Step)
    requires MutexInv(s) && FlightInv(s) && CountInv(s) && PairInv(s.clients, s.log) && Enabled(s, a)
    requires !a.ReceiveReply? && !a.ServerTake?
    ensures PairInv(Next(config, s, a).clients, Next(config, s, a).log)
  {
    Frames(config, s, a);
    PairMove(s.clients, Next(config, s, a).clients, s.log);
  }

  lemma PairStep(config: S.Config, s: State, a: Step)
    requires MutexInv(s) && FlightInv(s) && CountInv(s) && PairInv(s.clients, s.log) && Enabled(s, a)
    ensures PairInv(Next(config, s, a).clients, Next(config, s, a).log)
  {
    if a.ReceiveReply? {
      PairReceive(s, a.c);
    } else if a.ServerTake? {
      PairTake(config, s);
    } else {
      PairElsewhere(config, s, a);
    }
  }

  lemma HistoryStep(config: S.Config, s: State, a: Step)
    requires MutexInv(s) && FlightInv(s) && HistoryInv(s) && Enabled(s, a)
    ensures HistoryInv(Next(config, s, a))
  {
    CountStep(config, s, a);
    PairStep(config, s, a);
    SpawnStep(config, s, a);
  }

  // ---------------------------------------------------------------------------
  // The two tables
  // ---------------------------------------------------------------------------

  /** Keys whose reply has not been processed. */
  ghost function PendingKeys(clients: map<ClientId, Client>): set<Key> {
    set c <- clients | clients[c].Pending() :: clients[c].Key()
  }

  /** Keys the client side should be able to serve: forwards the server has, and pending requests. */
  ghost function LiveKeys(s: State): set<Key> {
    s.forwards.table.Keys + PendingKeys(s.clients)
  }

  /** The two parties agree. */
  ghost predicate Agreement(s: State) {
    TableKeys(s.table) == LiveKeys(s)
  }

  /** The client's table, in every reachable state: the live keys, less those that a failed request
      has taken out since. */
  ghost predicate TableInv(s: State) {
    UniqueKeys(s.table) && TableKeys(s.table) == LiveKeys(s) - s.log.removed.Keys
  }

  lemma AgreementMeaning(s: State)
    requires TableInv(s)
    ensures Agreement(s) <==> s.log.removed.Keys !! LiveKeys(s)
  {
  }

  /** Moving one client changes the pending keys by its own key at most. */
  lemma PendingAfterMove(clients: map<ClientId, Client>, c: ClientId, cl: Client)
    requires c in clients
    ensures var others := PendingKeys(clients - {c});
            && PendingKeys(clients) == others + (if clients[c].Pending() then {clients[c].Key()} else {})
            && PendingKeys(clients[c := cl]) == others + (if cl.Pending() then {cl.Key()} else {})
  {
    var others := PendingKeys(clients - {c});
    var after := clients[c := cl];
    assert clients - {c} == after - {c};
    PendingSplit(clients, c);
    PendingSplit(after, c);
  }

  lemma PendingSplit(clients: map<ClientId, Client>, c: ClientId)
    requires c in clients
    ensures PendingKeys(clients)
         == PendingKeys(clients - {c}) + (if clients[c].Pending() then {clients[c].Key()} else {})
  {
    var others := clients - {c};
    forall k | k in PendingKeys(clients)
      ensures k in PendingKeys(others) || (clients[c].Pending() && k == clients[c].Key())
    {
      var d :| d in clients && clients[d].Pending() && clients[d].Key() == k;
      assert d != c ==> d in others;
    }
    forall k | k in PendingKeys(others)
      ensures k in PendingKeys(clients)
    {
      var d :| d in others && others[d].Pending() && others[d].Key() == k;
      assert d in clients && clients[d] == others[d];
    }
  }

  lemma TableRegister(config: S.Config, s: State, c: ClientId)
    requires MutexInv(s) && TableInv(s) && Enabled(s, Register(c))
    ensures TableInv(Next(config, s, Register(c)))
    ensures LiveKeys(Next(config, s, Register(c))) == LiveKeys(s) + {s.clients[c].Key()}
  {
    var t := Next(config, s, Register(c));
    PendingAfterMove(s.clients, c, t.clients[c]);
    PushKeys(s.table, s.clients[c].specs[s.clients[c].next]);
    assert t.log.removed.Keys == s.log.removed.Keys - {s.clients[c].Key()};
  }

  lemma TableRemove(config: S.Config, s: State, c: ClientId)
    requires MutexInv(s) && TableInv(s) && Enabled(s, RemoveEntry(c))
    ensures TableInv(Next(config, s, RemoveEntry(c)))
    ensures LiveKeys(Next(config, s, RemoveEntry(c)))
         == s.forwards.table.Keys + PendingKeys(s.clients - {c})
  {
    var t := Next(config, s, RemoveEntry(c));
    PendingAfterMove(s.clients, c, t.clients[c]);
    RetainKeys(s.table, s.clients[c].Key());
    assert t.log.removed.Keys == s.log.removed.Keys + {s.clients[c].Key()};
  }

  lemma LiveReceive(s: State, c: ClientId)
    requires MutexInv(s) && FlightInv(s) && Enabled(s, ReceiveReply(c))
    ensures LiveKeys(Receive(s, c)) == LiveKeys(s)
  {
    assert s.holder == Some(c);
    PendingAfterMove(s.clients, c, Receive(s, c).clients[c]);
  }

  lemma LiveTake(config: S.Config, s: State)
    requires MutexInv(s) && FlightInv(s) && Enabled(s, ServerTake)
    ensures LiveKeys(Take(config, s)) == LiveKeys(s)
  {
    var c := s.holder.value;
    assert s.clients[c].Key() in PendingKeys(s.clients);
    assert Take(config, s).forwards.table.Keys <= s.forwards.table.Keys + {s.clients[c].Key()};
  }

  lemma LiveUnchanged(config: S.Config, s: State, a: Step)
    requires MutexInv(s) && FlightInv(s) && Enabled(s, a) && !a.Register? && !a.RemoveEntry?
    ensures LiveKeys(Next(config, s, a)) == LiveKeys(s)
  {
    if a.ReceiveReply? {
      LiveReceive(s, a.c);
    } else if a.ServerTake? {
      LiveTake(config, s);
    } else if ByClient(a) {
      PendingAfterMove(s.clients, a.c, Next(config, s, a).clients[a.c]);
    }
  }

  lemma TableStep(config: S.Config, s: State, a: Step)
    requires MutexInv(s) && FlightInv(s) && TableInv(s) && Enabled(s, a)
    ensures TableInv(Next(config, s, a))
  {
    match a
    case Register(c) => TableRegister(config, s, c);
    case RemoveEntry(c) => TableRemove(config, s, c);
    case _ => LiveUnchanged(config, s, a);
  }

  ghost predicate Inv(s: State) {
    MutexInv(s) && FlightInv(s) && HistoryInv(s) && TableInv(s)
  }

  lemma StepKeeps(config: S.Config, s: State, a: Step)
    requires Inv(s) && Enabled(s, a)
    ensures Inv(Next(config, s, a))
  {
    MutexStep(config, s, a);
    FlightStep(config, s, a);
    HistoryStep(config, s, a);
    TableStep(config, s, a);
  }

  lemma InitialInv(w: Workload)
    ensures Inv(Initial(w))
  {
  }

  /** From agreement, one step breaks agreement exactly when it is a client taking its entry out after
      a failure while the server still has that forward or another task still waits on that key. */
  lemma AgreementBreaksExactly(config: S.Config, s: State, a: Step)
    requires Inv(s) && Agreement(s) && Enabled(s, a)
    ensures Agreement(Next(config, s, a)) <==>
            !(a.RemoveEntry? && s.clients[a.c].Key() in s.forwards.table.Keys + PendingKeys(s.clients - {a.c}))
  {
    AgreementMeaning(s);
    if a.Register? {
      RegisterKeepsAgreement(config, s, a.c);
    } else if a.RemoveEntry? {
      RemoveBreaksAgreement(config, s, a.c);
    } else {
      LiveUnchanged(config, s, a);
      Frames(config, s, a);
    }
  }

  lemma RegisterKeepsAgreement(config: S.Config, s: State, c: ClientId)
    requires MutexInv(s) && TableInv(s) && Agreement(s) && Enabled(s, Register(c))
    ensures Agreement(Next(config, s, Register(c)))
  {
    TableRegister(config, s, c);
    AgreementMeaning(s);
    assert Next(config, s, Register(c)).log.removed.Keys == s.log.removed.Keys - {s.clients[c].Key()};
  }

  lemma RemoveBreaksAgreement(config: S.Config, s: State, c: ClientId)
    requires MutexInv(s) && TableInv(s) && Agreement(s) && Enabled(s, RemoveEntry(c))
    ensures Agreement(Next(config, s, RemoveEntry(c)))
            <==> s.clients[c].Key() !in s.forwards.table.Keys + PendingKeys(s.clients - {c})
  {
    TableRemove(config, s, c);
    AgreementMeaning(s);
    AgreementMeaning(Next(config, s, RemoveEntry(c)));
    PendingSplit(s.clients, c);
    assert Next(config, s, RemoveEntry(c)).log.removed.Keys == s.log.removed.Keys + {s.clients[c].Key()};
  }

  // ---------------------------------------------------------------------------
  // Whose request each forward, entry and removal goes back to
  // ---------------------------------------------------------------------------

  ghost predicate Asks(clients: map<ClientId, Client>, c: ClientId, i: nat) {
    c in clients && i < |clients[c].specs|
  }

  /** The task has read its confirmation of the request and gone on. */
  ghost predicate Done(clients: map<ClientId, Client>, c: ClientId, i: nat) {
    Asks(clients, c, i) && i < clients[c].next
  }

  /** The task has registered that spec. */
  ghost predicate Reached(clients: map<ClientId, Client>, c: ClientId, i: nat) {
    Asks(clients, c, i) && (i < clients[c].next || (i == clients[c].next && !clients[c].phase.Idle?))
  }

  /** The request `at` of its task has been confirmed, or its confirmation is on the way. */
  ghost predicate Granted(s: State, at: (ClientId, nat)) {
    && Asks(s.clients, at.0, at.1)
    && (at.1 < s.clients[at.0].next
        || (at.1 == s.clients[at.0].next && Waiting(s) && s.holder == Some(at.0)
            && InFlightReply(s).Some? && InFlightReply(s).value.TcpForwardConfirm?))
  }

  /** `spec` is the one whose request created the forward `k`. */
  ghost predicate Own(s: State, k: Key, spec: ForwardSpec) {
    && k in s.log.owner
    && var at := s.log.owner[k];
       Asks(s.clients, at.0, at.1) && s.clients[at.0].specs[at.1] == spec && KeyOf(spec) == k
  }

  ghost predicate Owned(s: State, k: Key) {
    && k in s.log.owner
    && Granted(s, s.log.owner[k])
    && Own(s, k, s.clients[s.log.owner[k].0].specs[s.log.owner[k].1])
  }

  ghost predicate OwnerInv(s: State) {
    forall k <- s.forwards.table :: Owned(s, k)
  }

  ghost predicate DoneInv(s: State) {
    forall c, i: nat :: Done(s.clients, c, i) ==> KeyOf(s.clients[c].specs[i]) in s.forwards.table
  }

  /** The client has taken its refused key out, and stays at it for good. */
  ghost predicate StoppedAt(clients: map<ClientId, Client>, k: Key, c: ClientId) {
    && c in clients && Asks(clients, c, clients[c].next)
    && (clients[c].phase.Reporting? || clients[c].phase.Failed?)
    && clients[c].Key() == k
  }

  ghost predicate RemovedInv(s: State) {
    forall k <- s.log.removed :: StoppedAt(s.clients, k, s.log.removed[k])
  }

  ghost predicate Entered(clients: map<ClientId, Client>, spec: ForwardSpec) {
    exists c, i: nat :: Reached(clients, c, i) && clients[c].specs[i] == spec
  }

  ghost predicate EntriesInv(s: State) {
    forall spec <- s.table :: Entered(s.clients, spec)
  }

  ghost predicate Traced(config: S.Config, s: State) {
    Inv(s) && OwnerInv(s) && DoneInv(s) && RemovedInv(s) && EntriesInv(s) && S.ForwardsInv(config, s.forwards)
  }

  lemma GrantedStays(config: S.Config, s: State, a: Step, at: (ClientId, nat))
    requires MutexInv(s) && FlightInv(s) && Enabled(s, a) && !a.ReceiveReply? && !a.ServerTake? && Granted(s, at)
    ensures Granted(Next(config, s, a), at)
  {
  }

  lemma GrantedReceive(s: State, c: ClientId, at: (ClientId, nat))
    requires MutexInv(s) && FlightInv(s) && Enabled(s, ReceiveReply(c)) && Granted(s, at)
    ensures Granted(Receive(s, c), at)
  {
    assert s.holder == Some(c);
  }

  /** A live forward stays, with its owner. */
  lemma OwnStays(config: S.Config, s: State, a: Step, k: Key)
    requires MutexInv(s) && FlightInv(s) && Enabled(s, a) && k in s.forwards.table && k in s.log.owner
    ensures var t := Next(config, s, a);
            && k in t.forwards.table && k in t.log.owner && t.log.owner[k] == s.log.owner[k]
            && (forall spec :: Own(s, k, spec) ==> Own(t, k, spec))
  {
    Frames(config, s, a);
    if a.ServerTake? {
      TakeKeepsOwner(config, s, k);
    }
  }

  lemma TakeKeepsOwner(config: S.Config, s: State, k: Key)
    requires s.outbox != [] && k in s.forwards.table && k in s.log.owner
    ensures var t := Take(config, s);
            k in t.forwards.table && k in t.log.owner && t.log.owner[k] == s.log.owner[k]
  {
  }

  /** The request that the server decides is the holder's. */
  lemma TakeDecides(config: S.Config, s: State)
    requires MutexInv(s) && FlightInv(s) && CountInv(s) && Enabled(s, ServerTake)
    ensures Waiting(s) && Asks(s.clients, s.holder.value, s.clients[s.holder.value].next)
    ensures var t, c := Take(config, s), s.holder.value;
            var key := s.clients[c].Key();
            && t.clients == s.clients && t.holder == s.holder && t.table == s.table && t.log.removed == s.log.removed
            && t.forwards == S.Request(config, s.forwards, key)
            && t.answering == Some(S.Answer(config, s.forwards.table, key))
            && (key !in s.forwards.table && key in t.forwards.table ==>
                  t.log.owner == s.log.owner[key := (c, s.clients[c].next)])
  {
    var key := s.clients[s.holder.value].Key();
    assert s.outbox[0] == TcpForwardRequest(key.0, key.1);
  }

  lemma GrantedTake(config: S.Config, s: State, at: (ClientId, nat))
    requires MutexInv(s) && FlightInv(s) && Enabled(s, ServerTake) && Granted(s, at)
    ensures Granted(Take(config, s), at)
  {
  }

  lemma OwnerTake(config: S.Config, s: State)
    requires MutexInv(s) && FlightInv(s) && CountInv(s) && OwnerInv(s) && Enabled(s, ServerTake)
    ensures OwnerInv(Take(config, s))
  {
    var t := Take(config, s);
    TakeDecides(config, s);
    forall k | k in t.forwards.table
      ensures Owned(t, k)
    {
      if k in s.forwards.table {
        assert Owned(s, k);
        OwnStays(config, s, ServerTake, k);
        GrantedTake(config, s, s.log.owner[k]);
      } else {
        assert Granted(t, (s.holder.value, s.clients[s.holder.value].next));
      }
    }
  }

  lemma OwnerStep(config: S.Config, s: State, a: Step)
    requires MutexInv(s) && FlightInv(s) && CountInv(s) && OwnerInv(s) && Enabled(s, a)
    ensures OwnerInv(Next(config, s, a))
  {
    if a.ServerTake? {
      OwnerTake(config, s);
    } else {
      Frames(config, s, a);
      forall k | k in s.forwards.table
        ensures Owned(Next(config, s, a), k)
      {
        assert Owned(s, k);
        OwnStays(config, s, a, k);
        if a.ReceiveReply? {
          GrantedReceive(s, a.c, s.log.owner[k]);
        } else {
          GrantedStays(config, s, a, s.log.owner[k]);
        }
      }
    }
  }

  lemma DoneReceive(s: State, c: ClientId)
    requires MutexInv(s) && FlightInv(s) && DoneInv(s) && Enabled(s, ReceiveReply(c))
    ensures DoneInv(Receive(s, c))
  {
    assert s.holder == Some(c);
    var t := Receive(s, c);
    forall d, i: nat | Done(t.clients, d, i)
      ensures KeyOf(t.clients[d].specs[i]) in t.forwards.table
    {
      assert Done(s.clients, d, i) || (d == c && i == s.clients[c].next && s.inbox[0].TcpForwardConfirm?);
    }
  }

  lemma DoneElsewhere(config: S.Config, s: State, a: Step, c: ClientId, i: nat)
    requires Enabled(s, a) && !a.ReceiveReply? && Done(Next(config, s, a).clients, c, i)
    ensures Done(s.clients, c, i)
  {
  }

  lemma DoneStep(config: S.Config, s: State, a: Step)
    requires MutexInv(s) && FlightInv(s) && DoneInv(s) && Enabled(s, a)
    ensures DoneInv(Next(config, s, a))
  {
    var t := Next(config, s, a);
    if a.ReceiveReply? {
      DoneReceive(s, a.c);
    } else {
      Frames(config, s, a);
      if a.ServerTake? {
        TakeKeepsForwards(config, s);
      }
      forall c, i: nat | Done(t.clients, c, i)
        ensures KeyOf(t.clients[c].specs[i]) in t.forwards.table
      {
        DoneElsewhere(config, s, a, c, i);
      }
    }
  }

  lemma TakeKeepsForwards(config: S.Config, s: State)
    requires s.outbox != []
    ensures s.forwards.table.Keys <= Take(config, s).forwards.table.Keys
    ensures S.ForwardsInv(config, s.forwards) ==> S.ForwardsInv(config, Take(config, s).forwards)
  {
    if s.outbox[0].TcpForwardRequest? && S.ForwardsInv(config, s.forwards) {
      S.RequestKeeps(config, s.forwards, (s.outbox[0].bindAddr, s.outbox[0].bindPort));
    }
  }

  lemma StaysStopped(config: S.Config, s: State, a: Step, k: Key, c: ClientId)
    requires Enabled(s, a) && StoppedAt(s.clients, k, c)
    ensures StoppedAt(Next(config, s, a).clients, k, c)
  {
  }

  lemma RemovedStep(config: S.Config, s: State, a: Step)
    requires MutexInv(s) && FlightInv(s) && RemovedInv(s) && Enabled(s, a)
    ensures RemovedInv(Next(config, s, a))
  {
    var t := Next(config, s, a);
    forall k | k in t.log.removed
      ensures StoppedAt(t.clients, k, t.log.removed[k])
    {
      if a.RemoveEntry? && k == s.clients[a.c].Key() {
        assert t.log.removed[k] == a.c;
      } else {
        Frames(config, s, a);
        StaysStopped(config, s, a, k, s.log.removed[k]);
      }
    }
  }

  lemma StaysReached(config: S.Config, s: State, a: Step, c: ClientId, i: nat)
    requires MutexInv(s) && Enabled(s, a) && Reached(s.clients, c, i)
    ensures Reached(Next(config, s, a).clients, c, i)
  {
  }

  /** An entry of the next table was there or is the spec that the step registers. */
  lemma TableComesFrom(config: S.Config, s: State, a: Step, spec: ForwardSpec)
    requires Enabled(s, a) && spec in Next(config, s, a).table && UniqueKeys(s.table)
    ensures spec in s.table || (a.Register? && spec == s.clients[a.c].specs[s.clients[a.c].next])
  {
    Frames(config, s, a);
    if a.Register? {
      PushKeys(s.table, s.clients[a.c].specs[s.clients[a.c].next]);
    } else if a.RemoveEntry? {
      RetainEntries(s.table, s.clients[a.c].Key());
    }
  }

  lemma EntriesStep(config: S.Config, s: State, a: Step)
    requires MutexInv(s) && UniqueKeys(s.table) && EntriesInv(s) && Enabled(s, a)
    ensures EntriesInv(Next(config, s, a))
  {
    var t := Next(config, s, a);
    Frames(config, s, a);
    forall spec | spec in t.table
      ensures Entered(t.clients, spec)
    {
      TableComesFrom(config, s, a, spec);
      if spec in s.table {
        var c, i: nat :| Reached(s.clients, c, i) && s.clients[c].specs[i] == spec;
        StaysReached(config, s, a, c, i);
      } else {
        assert Reached(t.clients, a.c, s.clients[a.c].next);
      }
    }
  }

  lemma LimitStep(config: S.Config, s: State, a: Step)
    requires S.ForwardsInv(config, s.forwards) && Enabled(s, a)
    ensures S.ForwardsInv(config, Next(config, s, a).forwards)
  {
    if a.ServerTake? {
      TakeKeepsForwards(config, s);
    } else {
      Frames(config, s, a);
    }
  }

  lemma TracedStep(config: S.Config, s: State, a: Step)
    requires Traced(config, s) && Enabled(s, a)
    ensures Traced(config, Next(config, s, a))
  {
    StepKeeps(config, s, a);
    OwnerStep(config, s, a);
    DoneStep(config, s, a);
    RemovedStep(config, s, a);
    EntriesStep(config, s, a);
    LimitStep(config, s, a);
  }

  lemma InitialTraced(config: S.Config, w: Workload)
    ensures Traced(config, Initial(w))
  {
    InitialInv(w);
  }

  /** Whatever the clients ask for and however the tasks interleave: one task at a time owns the
      control stream, at most one request is outstanding, each reply goes to the task whose request it
      answers, the client's table is the live keys less the keys that failures removed, and each
      forward, entry and removal goes back to one request. */
  lemma {:induction false} EveryRun(config: S.Config, s: State, schedule: seq<Step>)
    requires Traced(config, s)
    ensures var t := Exec(config, s, schedule);
            t.Some? ==> Traced(config, t.value) && Outstanding(t.value) <= 1 && SameSpecs(s.clients, t.value.clients)
    decreases schedule
  {
    if schedule != [] && Enabled(s, schedule[0]) {
      TracedStep(config, s, schedule[0]);
      Frames(config, s, schedule[0]);
      EveryRun(config, Next(config, s, schedule[0]), schedule[1..]);
    }
  }

  // ---------------------------------------------------------------------------
  // No deadlock
  // ---------------------------------------------------------------------------

  /** How many steps the holder of the mutex is from releasing it. */
  function ToRelease(s: State): nat {
    if s.holder.None? || s.holder.value !in s.clients then 0
    else
      match s.clients[s.holder.value].phase
      case Locked => 6
      case Awaiting => if s.outbox != [] then 5 else if s.answering.Some? then 4 else 3
      case Removing(_) => 2
      case Reporting(_) => 1
      case _ => 0
  }

  /** The next step of whoever has to move for the mutex to be released. */
  lemma ReleaseStep(config: S.Config, s: State) returns (a: Step)
    requires MutexInv(s) && FlightInv(s) && s.holder.Some?
    ensures Enabled(s, a) && ToRelease(Next(config, s, a)) < ToRelease(s)
  {
    var c := s.holder.value;
    match s.clients[c].phase
    case Locked => a := SendRequest(c);
    case Removing(_) => a := RemoveEntry(c);
    case Reporting(_) => a := ReportError(c);
    case _ => a := if s.outbox != [] then ServerTake else if s.answering.Some? then ServerSend else ReceiveReply(c);
  }

  /** In every reachable state the mutex can be released, so no task waits for it for good. */
  lemma {:induction false} NoDeadlock(config: S.Config, s: State) returns (schedule: seq<Step>, t: State)
    requires Traced(config, s)
    ensures Exec(config, s, schedule) == Some(t) && Traced(config, t) && t.holder.None?
    decreases ToRelease(s)
  {
    if s.holder.None? {
      schedule, t := [], s;
    } else {
      var a := ReleaseStep(config, s);
      TracedStep(config, s, a);
      var rest;
      rest, t := NoDeadlock(config, Next(config, s, a));
      assert ([a] + rest)[1..] == rest;
      schedule := [a] + rest;
    }
  }
}
