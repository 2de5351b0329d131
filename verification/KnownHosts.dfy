/** The store of server fingerprints: its text form, and trust on first use over whole runs of checks,
    saves and reloads. */
module KnownHosts {
  import opened Wrappers
  import opened Text

  type Entries = map<string, string>

  const SPACE: char := ' '
  const NEWLINE: char := '\n'

  // ---------------------------------------------------------------------------
  // Text form
  // ---------------------------------------------------------------------------

  /** One line of the file; the fingerprint is everything after the first space. */
  function ParseLine(line: string): Option<(string, string)> {
    var t := Trim(line);
    if t == [] || t[0] == '#' then None
    else
      match Find(t, SPACE)
      case None => None
      case Some(i) => Some((t[..i], t[i + 1..]))
  }

  function ParseLines(lines: seq<string>): Entries {
    if lines == [] then map[]
    else
      var earlier := ParseLines(lines[..|lines| - 1]);
      match ParseLine(lines[|lines| - 1])
      case None => earlier
      case Some((host, fp)) => earlier[host := fp]
  }

  function Parse(contents: string): Entries {
    ParseLines(Lines(contents))
  }

  function Line(e: (string, string)): string {
    e.0 + [SPACE] + e.1
  }

  function Render(entries: seq<(string, string)>): string {
    if entries == [] then [] else Render(entries[..|entries| - 1]) + Line(entries[|entries| - 1]) + [NEWLINE]
  }

  /** What survives a save and a load: no blank or comment sign at the start of the host, no space in it,
      no line break anywhere, and no whitespace at the end of the fingerprint. */
  predicate WellFormed(host: string, fp: string) {
    && host != [] && SPACE !in host && NEWLINE !in host && !IsWhitespace(host[0]) && host[0] != '#'
    && fp != [] && NEWLINE !in fp && !IsWhitespace(fp[|fp| - 1])
  }

  ghost predicate AllWellFormed(entries: Entries) {
    forall h <- entries :: WellFormed(h, entries[h])
  }

  /** The entries in some order, each once. */
  ghost predicate Orders(order: seq<(string, string)>, entries: Entries) {
    && (forall i :: 0 <= i < |order| ==> order[i].0 in entries && entries[order[i].0] == order[i].1)
    && (forall i, j :: 0 <= i < j < |order| ==> order[i].0 != order[j].0)
    && (forall h <- entries :: exists i :: 0 <= i < |order| && order[i].0 == h)
  }

  /** Loading yields well-formed entries only. */
  lemma ParseLineWellFormed(line: string)
    requires NEWLINE !in line
    ensures ParseLine(line).Some? ==> WellFormed(ParseLine(line).value.0, ParseLine(line).value.1)
  {
    TrimEnds(line);
  }

  lemma {:induction false} ParsedWellFormed(lines: seq<string>)
    requires forall i :: 0 <= i < |lines| ==> NEWLINE !in lines[i]
    ensures AllWellFormed(ParseLines(lines))
    decreases |lines|
  {
    if lines != [] {
      ParsedWellFormed(lines[..|lines| - 1]);
      ParseLineWellFormed(lines[|lines| - 1]);
    }
  }

  lemma LineRoundTrip(host: string, fp: string)
    requires WellFormed(host, fp)
    ensures ParseLine(Line((host, fp))) == Some((host, fp))
  {
    var line := Line((host, fp));
    TrimUnchanged(line);
    FindAfter(host, fp, SPACE);
    assert line[..|host|] == host && line[|host| + 1..] == fp;
  }

  lemma FirstLine(text: string) returns (first: string, rest: string)
    requires text != [] && text[|text| - 1] == NEWLINE
    ensures text == first + [NEWLINE] + rest && NEWLINE !in first
    ensures rest == [] || rest[|rest| - 1] == NEWLINE
  {
    var i := Find(text, NEWLINE).value;
    first, rest := text[..i], text[i + 1..];
  }

  lemma Regroup<T>(a: seq<T>, b: seq<T>, c: seq<T>)
    ensures a + b + c == a + (b + c)
  {
  }

  lemma LinesLonger(first: string, rest: string, more: string, line: string)
    requires NEWLINE !in first && Lines(rest + more) == Lines(rest) + [line]
    ensures Lines(first + [NEWLINE] + rest + more) == Lines(first + [NEWLINE] + rest) + [line]
  {
    LinesStep(first, rest);
    LinesStep(first, rest + more);
    Regroup(first + [NEWLINE], rest, more);
    Regroup([StripReturn(first)], Lines(rest), [line]);
  }

  /** A text that ends in a newline, and one more line. */
  lemma {:induction false} LinesAppend(text: string, line: string)
    requires text == [] || text[|text| - 1] == NEWLINE
    requires NEWLINE !in line && line != [] && line[|line| - 1] != '\r'
    ensures Lines(text + (line + [NEWLINE])) == Lines(text) + [line]
    decreases |text|
  {
    if text == [] {
      assert text + (line + [NEWLINE]) == line + [NEWLINE] + [];
      LinesStep(line, []);
    } else {
      var first, rest := FirstLine(text);
      LinesAppend(rest, line);
      LinesLonger(first, rest, line + [NEWLINE], line);
    }
  }

  /** The map built from a list of entries, a later one replacing an earlier one for the same host. */
  function Collected(order: seq<(string, string)>): Entries {
    if order == [] then map[] else Collected(order[..|order| - 1])[order[|order| - 1].0 := order[|order| - 1].1]
  }

  lemma {:induction false} RenderRoundTrip(order: seq<(string, string)>)
    requires forall i :: 0 <= i < |order| ==> WellFormed(order[i].0, order[i].1)
    ensures Parse(Render(order)) == Collected(order)
    ensures order != [] ==> Render(order) != [] && Render(order)[|Render(order)| - 1] == NEWLINE
    decreases |order|
  {
    if order != [] {
      var init, last := order[..|order| - 1], order[|order| - 1];
      var line := Line(last);
      RenderRoundTrip(init);
      LineRoundTrip(last.0, last.1);
      assert line[|line| - 1] == last.1[|last.1| - 1];
      LinesAppend(Render(init), line);
      assert Render(order) == Render(init) + (line + [NEWLINE]);
      LastLine(Lines(Render(init)), line);
    }
  }

  lemma LastLine(lines: seq<string>, line: string)
    requires ParseLine(line).Some?
    ensures ParseLines(lines + [line]) == ParseLines(lines)[ParseLine(line).value.0 := ParseLine(line).value.1]
  {
    assert (lines + [line])[..|lines|] == lines;
  }

  lemma {:induction false} CollectedMembers(order: seq<(string, string)>)
    requires forall i, j :: 0 <= i < j < |order| ==> order[i].0 != order[j].0
    ensures forall i :: 0 <= i < |order| ==> order[i].0 in Collected(order) && Collected(order)[order[i].0] == order[i].1
    ensures forall h <- Collected(order) :: exists i :: 0 <= i < |order| && order[i].0 == h
    decreases |order|
  {
    if order != [] {
      var init, last := order[..|order| - 1], order[|order| - 1];
      CollectedMembers(init);
      forall h | h in Collected(order) ensures exists i :: 0 <= i < |order| && order[i].0 == h {
        if h == last.0 {
          assert order[|order| - 1].0 == h;
        } else {
          var i :| 0 <= i < |init| && init[i].0 == h;
          assert order[i].0 == h;
        }
      }
    }
  }

  lemma OrderedCollected(order: seq<(string, string)>, entries: Entries)
    requires Orders(order, entries)
    ensures Collected(order) == entries
  {
    CollectedMembers(order);
    forall h | h in Collected(order) ensures h in entries && entries[h] == Collected(order)[h] {
      var i :| 0 <= i < |order| && order[i].0 == h;
      assert order[i].0 in entries;
    }
    forall h | h in entries ensures h in Collected(order) {
      var i :| 0 <= i < |order| && order[i].0 == h;
      assert order[i].0 in Collected(order);
    }
  }

  /** Whatever the iteration order, loading what was saved gives the same entries exactly when all of
      them are well formed. */
  lemma LoadSaveExactly(order: seq<(string, string)>, entries: Entries)
    requires Orders(order, entries)
    ensures Parse(Render(order)) == entries <==> AllWellFormed(entries)
  {
    if AllWellFormed(entries) {
      RenderRoundTrip(order);
      OrderedCollected(order, entries);
    }
    ParsedWellFormed(Lines(Render(order)));
  }

  /** The text form: host, space, fingerprint, newline; blank lines and comments say nothing, and neither
      does a line without a space. */
  lemma TextForm(host: string, fp: string, rest: string)
    requires WellFormed(host, fp)
    ensures Render([(host, fp)]) == host + " " + fp + "\n"
    ensures Parse(host + " " + fp + "\n") == map[host := fp]
    ensures ParseLine(['#'] + rest) == None && ParseLine([]) == None
    ensures ' ' !in rest ==> ParseLine(rest) == None
  {
    var order := [(host, fp)];
    assert order[..0] == [];
    assert Render(order) == [] + Line((host, fp)) + [NEWLINE];
    RenderRoundTrip(order);
    assert Collected(order) == Collected(order[..0])[host := fp];
    TrimKeepsFirst(['#'] + rest);
    TrimEnds(rest);
  }

  /** A later line for the same host replaces the earlier one. */
  lemma LaterLineWins(lines: seq<string>, host: string, fp: string)
    requires WellFormed(host, fp)
    ensures ParseLines(lines + [host + " " + fp]) == ParseLines(lines)[host := fp]
  {
    LineRoundTrip(host, fp);
    assert host + " " + fp == Line((host, fp));
    LastLine(lines, host + " " + fp);
  }

  // ---------------------------------------------------------------------------
  // Runs
  // ---------------------------------------------------------------------------

  /** What is in memory and what is on disk, where there may be no file. */
  datatype State = State(entries: Entries, file: Option<string>)

  /** How one save goes: the iteration order of the table, and what a failed write leaves behind. */
  datatype Write = Write(order: seq<(string, string)>, ok: bool, wreck: Option<string>)

  datatype Event =
    | Check(host: string, fp: string, write: Write)
    | Pin(host: string, fp: string, write: Write)
    | Reload

  function Stored(file: Option<string>): Entries {
    match file case None => map[] case Some(contents) => Parse(contents)
  }

  function Saved(w: Write): Option<string> {
    if w.ok then Some(Render(w.order)) else w.wreck
  }

  /** The next state, and whether the event was accepted. */
  function Step(s: State, e: Event): (State, bool) {
    match e
    case Check(host, fp, w) =>
      if host !in s.entries then (State(s.entries[host := fp], Saved(w)), w.ok)
      else (s, s.entries[host] == fp)
    case Pin(host, fp, w) => (State(s.entries[host := fp], Saved(w)), w.ok)
    case Reload => (State(Stored(s.file), s.file), true)
  }

  /** A save writes the entries as they stand after the event. */
  ghost predicate Feasible(s: State, e: Event) {
    match e
    case Check(host, fp, w) => host !in s.entries ==> Orders(w.order, s.entries[host := fp])
    case Pin(host, fp, w) => Orders(w.order, s.entries[host := fp])
    case Reload => true
  }

  lemma RenderNext(order: seq<(string, string)>, n: nat)
    requires n < |order|
    ensures Render(order[..n]) + order[n].0 + [SPACE] + order[n].1 + [NEWLINE] == Render(order[..n + 1])
  {
    assert order[..n + 1][..n] == order[..n];
    var before := Render(order[..n]);
    assert before + order[n].0 + [SPACE] + order[n].1 == before + Line(order[n]);
  }

  class Store {
    var entries: Entries
    var file: Option<string>

    ghost function Now(): State
      reads this
    {
      State(entries, file)
    }

    constructor (contents: Option<string>)
      ensures file == contents && entries == Stored(contents)
    {
      var found: Entries := map[];
      if contents.Some? {
        var lines := Lines(contents.value);
        for i := 0 to |lines|
          invariant found == ParseLines(lines[..i])
        {
          assert lines[..i + 1][..i] == lines[..i];
          var line := Trim(lines[i]);
          if line == [] || line[0] == '#' {
            continue;
          }
          match Find(line, SPACE) {
            case Some(k) => found := found[line[..k] := line[k + 1..]];
            case None =>
          }
        }
        assert lines[..|lines|] == lines;
      }
      entries, file := found, contents;
    }

    /** A file that its group or others can access (`mode` with 0o077) is refused. */
    static method Load(contents: Option<string>, mode: nat) returns (store: Option<Store>)
      ensures store.None? <==> contents.Some? && mode % 0x40 != 0
      ensures store.Some? ==> fresh(store.value) && store.value.Now() == State(Stored(contents), contents)
    {
      if contents.Some? && mode % 0x40 != 0 {
        return None;
      }
      var loaded := new Store(contents);
      return Some(loaded);
    }

    method Save(w: Write) returns (ok: bool)
      requires Orders(w.order, entries)
      modifies this`file
      ensures ok == w.ok && file == Saved(w)
    {
      var contents := "";
      for i := 0 to |w.order|
        invariant contents == Render(w.order[..i])
      {
        RenderNext(w.order, i);
        contents := contents + w.order[i].0 + [SPACE] + w.order[i].1 + [NEWLINE];
      }
      assert w.order[..|w.order|] == w.order;
      ok := w.ok;
      file := if w.ok then Some(contents) else w.wreck;
    }

    method Verify(host: string, fp: string, w: Write) returns (accepted: bool)
      requires Feasible(Now(), Check(host, fp, w))
      modifies this
      ensures (Now(), accepted) == Step(old(Now()), Check(host, fp, w))
    {
      if host !in entries {
        entries := entries[host := fp];
        accepted := Save(w);
      } else {
        accepted := entries[host] == fp;
      }
    }

    method PinHost(host: string, fp: string, w: Write) returns (ok: bool)
      requires Feasible(Now(), Pin(host, fp, w))
      modifies this
      ensures (Now(), ok) == Step(old(Now()), Pin(host, fp, w))
    {
      entries := entries[host := fp];
      ok := Save(w);
    }
  }

  /** The fingerprints accepted for one host, in order. */
  function Accepted(s: State, events: seq<Event>, host: string): seq<string>
    decreases events
  {
    if events == [] then []
    else
      var (t, ok) := Step(s, events[0]);
      (if events[0].Check? && events[0].host == host && ok then [events[0].fp] else []) + Accepted(t, events[1..], host)
  }

  ghost predicate AllEqual(fps: seq<string>) {
    forall i, j :: 0 <= i < j < |fps| ==> fps[i] == fps[j]
  }

  // ---------------------------------------------------------------------------
  // When trust on first use holds
  // ---------------------------------------------------------------------------

  /** An event leaves the trust in a known host alone: a restart finds the host on disk as it is in
      memory, and a pin repeats what is there. A check always does. */
  predicate Guarded(s: State, e: Event, host: string) {
    host in s.entries ==>
      match e
      case Check(_, _, _) => true
      case Pin(h, fp, _) => h == host ==> fp == s.entries[host]
      case Reload => host in Stored(s.file) && Stored(s.file)[host] == s.entries[host]
  }

  predicate GuardedRun(s: State, events: seq<Event>, host: string)
    decreases events
  {
    events == [] || (Guarded(s, events[0], host) && GuardedRun(Step(s, events[0]).0, events[1..], host))
  }

  lemma {:induction false} KnownAccepted(s: State, events: seq<Event>, host: string)
    requires GuardedRun(s, events, host) && host in s.entries
    ensures forall fp <- Accepted(s, events, host) :: fp == s.entries[host]
    decreases events
  {
    if events != [] {
      assert Guarded(s, events[0], host);
      KnownAccepted(Step(s, events[0]).0, events[1..], host);
    }
  }

  /** Trust on first use: over any run whose events all meet the guard, from any state of memory and
      disk, all fingerprints accepted for a host are the same. Failed saves, whatever they leave behind,
      and malformed names of other hosts do no harm unless a restart exposes them. */
  lemma {:induction false} OneFingerprint(s: State, events: seq<Event>, host: string)
    requires GuardedRun(s, events, host)
    ensures AllEqual(Accepted(s, events, host))
    decreases events
  {
    if events != [] {
      var t := Step(s, events[0]).0;
      OneFingerprint(t, events[1..], host);
      if host in t.entries {
        KnownAccepted(t, events[1..], host);
        var all := Accepted(s, events, host);
        assert forall fp <- all :: fp == t.entries[host];
        assert forall i :: 0 <= i < |all| ==> all[i] in all;
      } else {
        assert Accepted(s, events, host) == Accepted(t, events[1..], host);
      }
    }
  }

  /** A check of a host before an event, and one after it. */
  function Around(e: Event, host: string, f: string, g: string, w: Write): seq<Event> {
    [Check(host, f, w), e, Check(host, g, w)]
  }

  lemma AroundAccepts(s: State, e: Event, host: string, f: string, g: string, w: Write)
    requires host in s.entries && s.entries[host] == f && !(e.Check? && e.host == host)
    ensures var t := Step(s, e).0;
            Accepted(s, Around(e, host, f, g, w), host) ==
            [f] + if Step(t, Check(host, g, w)).1 then [g] else []
  {
    var events := Around(e, host, f, g, w);
    var t := Step(s, e).0;
    assert events[1..] == [e, Check(host, g, w)] && events[1..][1..] == [Check(host, g, w)];
    assert events[1..][1..][1..] == [];
    assert Step(s, events[0]) == (s, true);
    assert Accepted(t, events[1..][1..], host) == if Step(t, Check(host, g, w)).1 then [g] else [] by {
      assert Accepted(Step(t, Check(host, g, w)).0, [], host) == [];
    }
    assert Accepted(s, events[1..], host) == Accepted(t, events[1..][1..], host);
  }

  /** The guard is exact: at a known host, an event meets it exactly when no check afterwards can be
      accepted with a fingerprint other than the one accepted before. */
  lemma GuardExactly(s: State, e: Event, host: string)
    requires host in s.entries && !(e.Check? && e.host == host)
    ensures Guarded(s, e, host) <==>
            forall g, w :: AllEqual(Accepted(s, Around(e, host, s.entries[host], g, w), host))
  {
    var f := s.entries[host];
    var t := Step(s, e).0;
    if Guarded(s, e, host) {
      forall g, w ensures AllEqual(Accepted(s, Around(e, host, f, g, w), host)) {
        AroundAccepts(s, e, host, f, g, w);
      }
    } else {
      var g := if host in t.entries then t.entries[host] else f + [SPACE];
      var w := Write([], true, None);
      AroundAccepts(s, e, host, f, g, w);
      var all := Accepted(s, Around(e, host, f, g, w), host);
      assert |f + [SPACE]| != |f|;
      assert all == [f, g] && all[0] != all[1];
      assert !AllEqual(all);
    }
  }

  // ---------------------------------------------------------------------------
  // Runs that meet the guard
  // ---------------------------------------------------------------------------

  /** Memory and disk agree, and hold only what survives the text form. */
  ghost predicate Synced(s: State) {
    AllWellFormed(s.entries) && Stored(s.file) == s.entries
  }

  /** Saves succeed on well-formed entries, and nobody pins this host. */
  ghost predicate Ordinary(s: State, e: Event, host: string) {
    && Feasible(s, e)
    && match e
       case Check(h, fp, w) => w.ok && WellFormed(h, fp)
       case Pin(h, fp, w) => w.ok && WellFormed(h, fp) && h != host
       case Reload => true
  }

  ghost predicate OrdinaryRun(s: State, events: seq<Event>, host: string)
    decreases events
  {
    events == [] || (Ordinary(s, events[0], host) && OrdinaryRun(Step(s, events[0]).0, events[1..], host))
  }

  lemma StepSynced(s: State, e: Event, host: string)
    requires Synced(s) && Ordinary(s, e, host)
    ensures Synced(Step(s, e).0) && Guarded(s, e, host)
  {
    if e.Check? && e.host !in s.entries {
      LoadSaveExactly(e.write.order, s.entries[e.host := e.fp]);
    }
    if e.Pin? {
      LoadSaveExactly(e.write.order, s.entries[e.host := e.fp]);
    }
  }

  /** Successful saves of well-formed entries meet the guard. */
  lemma {:induction false} OrdinaryGuarded(s: State, events: seq<Event>, host: string)
    requires Synced(s) && OrdinaryRun(s, events, host)
    ensures GuardedRun(s, events, host)
    decreases events
  {
    if events != [] {
      StepSynced(s, events[0], host);
      OrdinaryGuarded(Step(s, events[0]).0, events[1..], host);
    }
  }

  /** Any file gives a synced start. */
  lemma LoadedSynced(file: Option<string>)
    ensures Synced(State(Stored(file), file))
  {
    if file.Some? {
      ParsedWellFormed(Lines(file.value));
    }
  }

  /** So trust on first use holds for such runs from whatever file is on disk. */
  lemma OrdinaryTrust(file: Option<string>, events: seq<Event>, host: string)
    requires OrdinaryRun(State(Stored(file), file), events, host)
    ensures AllEqual(Accepted(State(Stored(file), file), events, host))
  {
    LoadedSynced(file);
    OrdinaryGuarded(State(Stored(file), file), events, host);
    OneFingerprint(State(Stored(file), file), events, host);
  }

  /** A check whose save fails is refused but remembered; the next one is accepted without a save, and a
      restart then forgets the host, so another fingerprint is accepted. */
  lemma UnsavedTrustForgotten(host: string, f: string, g: string)
    ensures var failed, saved := Write([(host, f)], false, None), Write([(host, g)], true, None);
            Accepted(State(map[], None), [Check(host, f, failed)] + Around(Reload, host, f, g, saved), host) == [f, g]
  {
    var failed, saved := Write([(host, f)], false, None), Write([(host, g)], true, None);
    var s := State(map[host := f], None);
    AroundAccepts(s, Reload, host, f, g, saved);
    var events := [Check(host, f, failed)] + Around(Reload, host, f, g, saved);
    assert Step(State(map[], None), events[0]) == (s, false);
    assert events[1..] == Around(Reload, host, f, g, saved);
  }
}
