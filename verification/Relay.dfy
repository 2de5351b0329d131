/** Bytes crossing any chain of relay loops: pump to pump, or slave to master to server. Each node
    reads from one link and writes to the next, in chunks of its own choosing; a link carries whole
    frames or plain bytes. A loop that ends stops relaying in both directions at once. */
module Relay {
  import opened Wrappers

  function Concat(chunks: seq<Bytes>): Bytes {
    if chunks == [] then [] else chunks[0] + Concat(chunks[1..])
  }

  lemma {:induction false} ConcatAppend(chunks: seq<Bytes>, chunk: Bytes)
    ensures Concat(chunks + [chunk]) == Concat(chunks) + chunk
  {
    if chunks == [] {
      assert [chunk][1..] == [];
    } else {
      ConcatAppend(chunks[1..], chunk);
      assert (chunks + [chunk])[1..] == chunks[1..] + [chunk];
    }
  }

  /** What a relay loop owes its neighbours in one direction. While it runs, what it has passed on and
      what it still holds are what it has taken; once it has ended, it may have lost only the end. */
  ghost predicate Relayed(running: bool, taken: Bytes, put: Bytes, held: Bytes) {
    if running then taken == put + held else put <= taken
  }

  /** `held` is the chunk between being taken and being written out. */
  datatype Node = Node(running: bool, held: Option<Bytes>, taken: Bytes, put: Bytes)
  {
    function Held(): Bytes {
      match held case None => [] case Some(b) => b
    }
  }

  datatype Link = Frames(frames: seq<Bytes>) | Stream(bytes: Bytes)
  {
    function Content(): Bytes {
      match this case Frames(fs) => Concat(fs) case Stream(bs) => bs
    }
  }

  /** `links[i]` joins `nodes[i]` to `nodes[i + 1]`. The first node takes from outside the chain, the
      last puts outside it. */
  datatype Chain = Chain(nodes: seq<Node>, links: seq<Link>)

  ghost predicate Shaped(c: Chain) {
    |c.nodes| > 0 && |c.links| == |c.nodes| - 1
  }

  datatype Step =
    | Read(chunk: Bytes)
    | Take(i: nat, k: nat)
    | Put(i: nat, k: nat)
    | Stop(i: nat)

  predicate Enabled(c: Chain, a: Step)
    requires |c.links| == |c.nodes| - 1
  {
    match a
    case Read(_) => c.nodes[0].running && c.nodes[0].held.None?
    case Take(i, k) =>
      && 0 < i < |c.nodes| && c.nodes[i].running && c.nodes[i].held.None?
      && (match c.links[i - 1]
          case Frames(fs) => fs != []
          case Stream(bs) => 0 < k <= |bs|)
    case Put(i, k) =>
      && i < |c.nodes| && c.nodes[i].running && c.nodes[i].held.Some?
      && ((i < |c.links| && c.links[i].Frames?) || k <= |c.nodes[i].Held()|)
    case Stop(i) => i < |c.nodes|
  }

  /** The first frame, or the first `k` bytes, and what stays on the link. */
  function Pull(l: Link, k: nat): (Bytes, Link)
    requires if l.Frames? then l.frames != [] else k <= |l.bytes|
  {
    match l
    case Frames(fs) => (fs[0], Frames(fs[1..]))
    case Stream(bs) => (bs[..k], Stream(bs[k..]))
  }

  function Push(l: Link, chunk: Bytes): Link {
    match l case Frames(fs) => Frames(fs + [chunk]) case Stream(bs) => Stream(bs + chunk)
  }

  function Grab(n: Node, chunk: Bytes): Node {
    n.(held := Some(chunk), taken := n.taken + chunk)
  }

  /** A frame is sent whole; plain bytes may be written in several goes. */
  function Release(n: Node, k: nat): Node
    requires k <= |n.Held()|
  {
    n.(held := if k == |n.Held()| then None else Some(n.Held()[k..]), put := n.put + n.Held()[..k])
  }

  function Halt(n: Node): Node {
    n.(running := false, held := None)
  }

  function Next(c: Chain, a: Step): Chain
    requires |c.links| == |c.nodes| - 1 && Enabled(c, a)
  {
    match a
    case Read(chunk) => c.(nodes := c.nodes[0 := Grab(c.nodes[0], chunk)])
    case Take(i, k) =>
      var (chunk, link) := Pull(c.links[i - 1], k);
      Chain(c.nodes[i := Grab(c.nodes[i], chunk)], c.links[i - 1 := link])
    case Put(i, k) =>
      var n := c.nodes[i];
      if i == |c.links| then c.(nodes := c.nodes[i := Release(n, k)])
      else
        var size := if c.links[i].Frames? then |n.Held()| else k;
        Chain(c.nodes[i := Release(n, size)], c.links[i := Push(c.links[i], n.Held()[..size])])
    case Stop(i) => c.(nodes := c.nodes[i := Halt(c.nodes[i])])
  }

  ghost predicate NodeOk(n: Node) {
    Relayed(n.running, n.taken, n.put, n.Held())
  }

  ghost predicate Joined(m: Node, l: Link, n: Node) {
    m.put == n.taken + l.Content()
  }

  ghost predicate Inv(c: Chain) {
    && Shaped(c)
    && (forall i :: 0 <= i < |c.nodes| ==> NodeOk(c.nodes[i]))
    && (forall i :: 0 <= i < |c.links| ==> Joined(c.nodes[i], c.links[i], c.nodes[i + 1]))
  }

  lemma Regroup(a: Bytes, b: Bytes, c: Bytes)
    ensures a + b + c == a + (b + c)
  {
  }

  lemma PullContent(l: Link, k: nat)
    requires if l.Frames? then l.frames != [] else k <= |l.bytes|
    ensures l.Content() == Pull(l, k).0 + Pull(l, k).1.Content()
  {
  }

  lemma GrabOk(n: Node, chunk: Bytes)
    requires n.running && n.held.None? && NodeOk(n)
    ensures NodeOk(Grab(n, chunk)) && Grab(n, chunk).put == n.put
  {
    assert n.put + [] == n.put;
  }

  lemma PullJoined(m: Node, l: Link, n: Node, k: nat)
    requires Joined(m, l, n)
    requires if l.Frames? then l.frames != [] else k <= |l.bytes|
    ensures Joined(m, Pull(l, k).1, Grab(n, Pull(l, k).0))
  {
    var (chunk, link) := Pull(l, k);
    PullContent(l, k);
    Regroup(n.taken, chunk, link.Content());
  }

  lemma ReleaseOk(m: Node, size: nat)
    requires m.running && NodeOk(m) && size <= |m.Held()|
    ensures NodeOk(Release(m, size)) && Release(m, size).taken == m.taken
  {
    assert m.Held() == m.Held()[..size] + m.Held()[size..];
  }

  lemma PushJoined(m: Node, l: Link, n: Node, size: nat)
    requires Joined(m, l, n) && size <= |m.Held()|
    ensures Joined(Release(m, size), Push(l, m.Held()[..size]), n)
  {
    var chunk := m.Held()[..size];
    if l.Frames? {
      ConcatAppend(l.frames, chunk);
    }
    Regroup(n.taken, l.Content(), chunk);
  }

  lemma TakeKeeps(c: Chain, i: nat, k: nat)
    requires Inv(c) && Enabled(c, Take(i, k))
    ensures Inv(Next(c, Take(i, k)))
  {
    var d := Next(c, Take(i, k));
    assert Joined(c.nodes[i - 1], c.links[i - 1], c.nodes[i]) && NodeOk(c.nodes[i]);
    PullJoined(c.nodes[i - 1], c.links[i - 1], c.nodes[i], k);
    GrabOk(c.nodes[i], Pull(c.links[i - 1], k).0);
    forall j | 0 <= j < |d.links|
      ensures Joined(d.nodes[j], d.links[j], d.nodes[j + 1])
    {
      assert Joined(c.nodes[j], c.links[j], c.nodes[j + 1]);
    }
    assert forall j :: 0 <= j < |d.nodes| && j != i ==> d.nodes[j] == c.nodes[j];
  }

  lemma PutKeeps(c: Chain, i: nat, k: nat)
    requires Inv(c) && Enabled(c, Put(i, k))
    ensures Inv(Next(c, Put(i, k)))
  {
    var d := Next(c, Put(i, k));
    var size := if i < |c.links| && c.links[i].Frames? then |c.nodes[i].Held()| else k;
    assert NodeOk(c.nodes[i]);
    ReleaseOk(c.nodes[i], size);
    if i < |c.links| {
      assert Joined(c.nodes[i], c.links[i], c.nodes[i + 1]);
      PushJoined(c.nodes[i], c.links[i], c.nodes[i + 1], size);
    }
    forall j | 0 <= j < |d.links|
      ensures Joined(d.nodes[j], d.links[j], d.nodes[j + 1])
    {
      assert Joined(c.nodes[j], c.links[j], c.nodes[j + 1]);
    }
    assert forall j :: 0 <= j < |d.nodes| && j != i ==> d.nodes[j] == c.nodes[j];
  }

  lemma RestKeeps(c: Chain, a: Step)
    requires Inv(c) && Enabled(c, a) && (a.Read? || a.Stop?)
    ensures Inv(Next(c, a))
  {
    var d := Next(c, a);
    var i := if a.Read? then 0 else a.i;
    assert NodeOk(c.nodes[i]);
    forall j | 0 <= j < |d.links|
      ensures Joined(d.nodes[j], d.links[j], d.nodes[j + 1])
    {
      assert Joined(c.nodes[j], c.links[j], c.nodes[j + 1]);
    }
    assert forall j :: 0 <= j < |d.nodes| && j != i ==> d.nodes[j] == c.nodes[j];
  }

  lemma StepKeeps(c: Chain, a: Step)
    requires Inv(c) && Enabled(c, a)
    ensures Inv(Next(c, a))
  {
    match a
    case Take(i, k) => TakeKeeps(c, i, k);
    case Put(i, k) => PutKeeps(c, i, k);
    case Read(_) => RestKeeps(c, a);
    case Stop(_) => RestKeeps(c, a);
  }

  /** What node `i` has passed on is a prefix of what the first node has read. */
  lemma {:induction false} PutIsPrefix(c: Chain, i: nat)
    requires Inv(c) && i < |c.nodes|
    ensures c.nodes[i].put <= c.nodes[i].taken <= c.nodes[0].taken
  {
    assert NodeOk(c.nodes[i]);
    if i > 0 {
      PutIsPrefix(c, i - 1);
      assert Joined(c.nodes[i - 1], c.links[i - 1], c.nodes[i]);
    }
  }

  /** Bytes between what node `i` has taken and what the last node has put out. */
  ghost function InTransit(c: Chain, i: nat): Bytes
    requires Shaped(c) && i < |c.nodes|
    decreases |c.nodes| - i
  {
    if i == |c.links| then c.nodes[i].Held()
    else InTransit(c, i + 1) + c.links[i].Content() + c.nodes[i].Held()
  }

  /** While no loop has ended, nothing is lost: what was read is what came out and what is on its way. */
  lemma {:induction false} NothingLost(c: Chain, i: nat)
    requires Inv(c) && i < |c.nodes| && forall j :: 0 <= j < |c.nodes| ==> c.nodes[j].running
    ensures c.nodes[i].taken == c.nodes[|c.links|].put + InTransit(c, i)
    decreases |c.nodes| - i
  {
    assert NodeOk(c.nodes[i]);
    if i < |c.links| {
      NothingLost(c, i + 1);
      assert Joined(c.nodes[i], c.links[i], c.nodes[i + 1]);
    }
  }

  // ---------------------------------------------------------------------------
  // Everything can be delivered
  // ---------------------------------------------------------------------------

  ghost predicate AllRunning(c: Chain) {
    forall n <- c.nodes :: n.running
  }

  ghost function Load(l: Link): nat {
    match l case Frames(fs) => |fs| case Stream(bs) => if bs == [] then 0 else 1
  }

  /** The chain after these steps, none of which reads anything new or stops a loop. */
  ghost function Moved(c: Chain, steps: seq<Step>): Option<Chain>
    decreases |steps|
  {
    if steps == [] then Some(c)
    else if |c.links| == |c.nodes| - 1 && (steps[0].Take? || steps[0].Put?) && Enabled(c, steps[0])
      then Moved(Next(c, steps[0]), steps[1..])
    else None
  }

  lemma {:induction false} MovedOn(c: Chain, a: seq<Step>, b: seq<Step>)
    requires Moved(c, a).Some?
    ensures Moved(c, a + b) == Moved(Moved(c, a).value, b)
    decreases |a|
  {
    if a == [] {
      assert a + b == b;
    } else {
      assert (a + b)[1..] == a[1..] + b;
      MovedOn(Next(c, a[0]), a[1..], b);
    }
  }

  /** What is before node `i` stands as it was, and node `i` has taken nothing new. */
  ghost predicate KeptBefore(c: Chain, i: nat, d: Chain) {
    && Shaped(c) && Inv(d) && AllRunning(d) && |d.nodes| == |c.nodes| && i < |d.nodes|
    && (forall j :: 0 <= j < i ==> d.nodes[j] == c.nodes[j] && d.links[j] == c.links[j])
    && d.nodes[i].taken == c.nodes[i].taken
  }

  /** Nothing is held or on its way from node `i` on. */
  ghost predicate Empty(d: Chain, i: nat) {
    && (forall j :: i <= j < |d.nodes| ==> d.nodes[j].held.None?)
    && (forall j :: i <= j < |d.links| ==> Load(d.links[j]) == 0)
  }

  ghost predicate Busy(c: Chain, i: nat)
    requires i < |c.nodes|
  {
    c.nodes[i].held.Some? || (i < |c.links| && Load(c.links[i]) > 0)
  }

  /** How much node `i` has to do once everything after it is clear. */
  ghost function Due(c: Chain, i: nat): (nat, nat)
    requires i < |c.nodes|
  {
    (if c.nodes[i].held.Some? then 1 else 0, if i < |c.links| then Load(c.links[i]) else 0)
  }

  lemma TakeOn(c: Chain, i: nat) returns (a: Step)
    requires Inv(c) && AllRunning(c) && i < |c.links| && Load(c.links[i]) > 0 && c.nodes[i + 1].held.None?
    ensures a.Take? && Enabled(c, a) && KeptBefore(c, i, Next(c, a))
    ensures Next(c, a).nodes[i] == c.nodes[i] && Load(Next(c, a).links[i]) < Load(c.links[i])
  {
    assert c.nodes[i + 1] in c.nodes;
    a := Take(i + 1, if c.links[i].Stream? then |c.links[i].bytes| else 0);
    StepKeeps(c, a);
  }

  lemma PutOn(c: Chain, i: nat) returns (a: Step)
    requires Inv(c) && AllRunning(c) && i < |c.nodes| && c.nodes[i].held.Some?
    ensures a.Put? && Enabled(c, a) && KeptBefore(c, i, Next(c, a)) && Next(c, a).nodes[i].held.None?
  {
    assert c.nodes[i] in c.nodes;
    a := Put(i, |c.nodes[i].Held()|);
    StepKeeps(c, a);
  }

  /** The step that brings what node `i` holds, or what is on the link after it, one place further. */
  lemma OneOn(c: Chain, i: nat) returns (a: Step)
    requires Inv(c) && AllRunning(c) && i < |c.nodes| && Busy(c, i) && (i < |c.links| ==> c.nodes[i + 1].held.None?)
    ensures (a.Take? || a.Put?) && Enabled(c, a) && KeptBefore(c, i, Next(c, a))
    ensures var d := Next(c, a);
            if i < |c.links| && Load(c.links[i]) > 0
            then d.nodes[i] == c.nodes[i] && Load(d.links[i]) < Load(c.links[i])
            else d.nodes[i].held.None?
  {
    if i < |c.links| && Load(c.links[i]) > 0 {
      a := TakeOn(c, i);
    } else {
      a := PutOn(c, i);
    }
  }

  lemma KeptTwice(c: Chain, i: nat, d: Chain, e: Chain)
    requires KeptBefore(c, i, d) && KeptBefore(d, i, e)
    ensures KeptBefore(c, i, e)
  {
  }

  lemma KeptLess(c: Chain, i: nat, d: Chain)
    requires KeptBefore(c, i + 1, d)
    ensures KeptBefore(c, i, d) && d.nodes[i] == c.nodes[i] && d.links[i] == c.links[i]
  {
  }

  lemma StepsAndStep(c: Chain, steps: seq<Step>, d: Chain, a: Step, rest: seq<Step>)
    requires Moved(c, steps) == Some(d) && Shaped(d) && (a.Take? || a.Put?) && Enabled(d, a)
    ensures Moved(c, steps + ([a] + rest)) == Moved(Next(d, a), rest)
  {
    assert ([a] + rest)[1..] == rest;
    MovedOn(c, steps, [a] + rest);
  }

  /** Everything after node `i` cleared first. */
  lemma ClearAfter(c: Chain, i: nat) returns (steps: seq<Step>, d: Chain)
    requires Inv(c) && AllRunning(c) && i < |c.nodes|
    ensures Moved(c, steps) == Some(d) && KeptBefore(c, i, d) && Due(d, i) == Due(c, i)
    ensures Empty(d, i + 1)
    decreases |c.nodes| - i, 0, 0, 0
  {
    steps, d := [], c;
    if i < |c.links| {
      steps, d := Clear(c, i + 1);
      KeptLess(c, i, d);
    }
  }

  lemma {:induction false} Clear(c: Chain, i: nat) returns (steps: seq<Step>, d: Chain)
    requires Inv(c) && AllRunning(c) && i < |c.nodes|
    ensures Moved(c, steps) == Some(d) && KeptBefore(c, i, d) && Empty(d, i)
    decreases |c.nodes| - i, Due(c, i).0, Due(c, i).1, 1
  {
    steps, d := ClearAfter(c, i);
    if Busy(d, i) {
      var a := OneOn(d, i);
      var rest, e := Clear(Next(d, a), i);
      StepsAndStep(c, steps, d, a, rest);
      KeptTwice(d, i, Next(d, a), e);
      KeptTwice(c, i, d, e);
      steps, d := steps + ([a] + rest), e;
    }
  }

  lemma EmptyLink(l: Link)
    requires Load(l) == 0
    ensures l.Content() == []
  {
  }

  lemma {:induction false} NothingOnItsWay(c: Chain, i: nat)
    requires Shaped(c) && i < |c.nodes| && Empty(c, i)
    ensures InTransit(c, i) == []
    decreases |c.nodes| - i
  {
    assert c.nodes[i].Held() == [];
    if i < |c.links| {
      EmptyLink(c.links[i]);
      NothingOnItsWay(c, i + 1);
    }
  }

  /** While all loops run, what has been read can be brought through to the far end, all of it. */
  lemma DeliverAll(c: Chain) returns (steps: seq<Step>, d: Chain)
    requires Inv(c) && AllRunning(c)
    ensures Moved(c, steps) == Some(d) && Inv(d)
    ensures d.nodes[|d.nodes| - 1].put == c.nodes[0].taken == d.nodes[0].taken
  {
    steps, d := Clear(c, 0);
    assert forall j :: 0 <= j < |d.nodes| ==> d.nodes[j] in d.nodes;
    NothingOnItsWay(d, 0);
    NothingLost(d, 0);
  }

  // ---------------------------------------------------------------------------
  // Both directions
  // ---------------------------------------------------------------------------

  /** Node `i` of one direction and node `n - 1 - i` of the other are the same loop. */
  datatype Duplex = Duplex(east: Chain, west: Chain)

  datatype Move = East(step: Step) | West(step: Step) | End(i: nat)

  ghost predicate DuplexInv(d: Duplex) {
    Inv(d.east) && Inv(d.west) && |d.east.nodes| == |d.west.nodes|
  }

  predicate MoveEnabled(d: Duplex, m: Move)
    requires |d.east.links| == |d.east.nodes| - 1 && |d.west.links| == |d.west.nodes| - 1
  {
    match m
    case East(a) => !a.Stop? && Enabled(d.east, a)
    case West(a) => !a.Stop? && Enabled(d.west, a)
    case End(i) => i < |d.east.nodes| && |d.east.nodes| == |d.west.nodes|
  }

  function Apply(d: Duplex, m: Move): Duplex
    requires |d.east.links| == |d.east.nodes| - 1 && |d.west.links| == |d.west.nodes| - 1
    requires MoveEnabled(d, m)
  {
    match m
    case East(a) => d.(east := Next(d.east, a))
    case West(a) => d.(west := Next(d.west, a))
    case End(i) => Duplex(Next(d.east, Stop(i)), Next(d.west, Stop(|d.west.nodes| - 1 - i)))
  }

  /** The state after a schedule, if each move was possible when it came. */
  ghost function Exec(d: Duplex, schedule: seq<Move>): Option<Duplex>
    requires DuplexInv(d)
    decreases |schedule|
  {
    if schedule == [] then Some(d)
    else if !MoveEnabled(d, schedule[0]) then None
    else
      ApplyKeeps(d, schedule[0]);
      Exec(Apply(d, schedule[0]), schedule[1..])
  }

  lemma ApplyKeeps(d: Duplex, m: Move)
    requires DuplexInv(d) && MoveEnabled(d, m)
    ensures DuplexInv(Apply(d, m))
  {
    match m
    case East(a) => StepKeeps(d.east, a);
    case West(a) => StepKeeps(d.west, a);
    case End(i) => StepKeeps(d.east, Stop(i)); StepKeeps(d.west, Stop(|d.west.nodes| - 1 - i));
  }

  ghost predicate InOrder(c: Chain)
    requires Shaped(c)
  {
    c.nodes[|c.nodes| - 1].put <= c.nodes[0].taken
  }

  /** For every schedule, through any chain, in each direction: the bytes written at the far end are a
      prefix of the bytes read at the near end. */
  lemma {:induction false} EndToEndOrder(d: Duplex, schedule: seq<Move>)
    requires DuplexInv(d)
    ensures var e := Exec(d, schedule);
            e.Some? ==> DuplexInv(e.value) && InOrder(e.value.east) && InOrder(e.value.west)
    decreases |schedule|
  {
    if schedule == [] {
      PutIsPrefix(d.east, |d.east.nodes| - 1);
      PutIsPrefix(d.west, |d.west.nodes| - 1);
    } else if MoveEnabled(d, schedule[0]) {
      ApplyKeeps(d, schedule[0]);
      EndToEndOrder(Apply(d, schedule[0]), schedule[1..]);
    }
  }

  /** A fresh chain over links of any kinds. */
  ghost predicate Fresh(c: Chain) {
    && Shaped(c)
    && (forall n <- c.nodes :: n == Node(true, None, [], []))
    && (forall l <- c.links :: l == Frames([]) || l == Stream([]))
  }

  lemma FreshInv(c: Chain)
    requires Fresh(c)
    ensures Inv(c)
  {
    assert forall i :: 0 <= i < |c.nodes| ==> c.nodes[i] in c.nodes;
    assert forall i :: 0 <= i < |c.links| ==> c.links[i] in c.links;
  }
}
