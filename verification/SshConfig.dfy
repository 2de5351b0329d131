/** The ssh_config parser: sections, first-value-wins settings, forward specifications, and how two
    files in a row merge. */
module SshConfig {
  import opened Wrappers
  import opened Text
  import opened Tokenizer
  import HostPatterns
  import Utf8
  import M = Messages

  type ForwardSpec = M.ForwardSpec

  // ---------------------------------------------------------------------------
  // Forward specifications
  // ---------------------------------------------------------------------------

  const COLON: char := ':'
  const LOOPBACK: string := "127.0.0.1"

  /** `[bind_addr:]bind_port:target_host:target_port`; an address that itself holds a colon has no form. */
  function ParseForward(s: string): Option<ForwardSpec> {
    var parts := Split(s, COLON);
    if |parts| == 3 then MakeForward(LOOPBACK, parts[0], parts[1], parts[2])
    else if |parts| == 4 then MakeForward(parts[0], parts[1], parts[2], parts[3])
    else None
  }

  function MakeForward(addr: string, port: string, host: string, targetPort: string): Option<ForwardSpec> {
    match (ParseU16(port), ParseU16(targetPort))
    case (Some(p), Some(t)) => Some(M.ForwardSpec(addr, p, host, t))
    case _ => None
  }

  function RenderForward(f: ForwardSpec): string {
    f.bindAddr + [COLON] + (Decimal(f.bindPort) + [COLON] + (f.targetHost + [COLON] + Decimal(f.targetPort)))
  }

  lemma SplitHead(a: string, rest: string, c: char)
    requires c !in a
    ensures Split(a + [c] + rest, c) == [a] + Split(rest, c)
  {
    FindAfter(a, rest, c);
    var s := a + [c] + rest;
    assert s[..|a|] == a && s[|a| + 1..] == rest;
  }

  function Count(s: string, c: char): nat {
    if s == [] then 0 else (if s[0] == c then 1 else 0) + Count(s[1..], c)
  }

  lemma {:induction false} CountConcat(a: string, b: string, c: char)
    ensures Count(a + b, c) == Count(a, c) + Count(b, c)
    decreases |a|
  {
    if a == [] {
      assert a + b == b;
    } else {
      assert (a + b)[1..] == a[1..] + b;
      CountConcat(a[1..], b, c);
    }
  }

  lemma {:induction false} CountZero(s: string, c: char)
    ensures Count(s, c) == 0 <==> c !in s
    decreases |s|
  {
    if s != [] {
      CountZero(s[1..], c);
      assert s == [s[0]] + s[1..];
    }
  }

  lemma {:induction false} SplitCount(s: string, c: char)
    ensures |Split(s, c)| == Count(s, c) + 1
    decreases |s|
  {
    match Find(s, c)
    case None => CountZero(s, c);
    case Some(i) =>
      SplitCount(s[i + 1..], c);
      CountZero(s[..i], c);
      assert s == s[..i] + [c] + s[i + 1..];
      CountConcat(s[..i] + [c], s[i + 1..], c);
      CountConcat(s[..i], [c], c);
      assert Count([c], c) == 1 + Count([c][1..], c);
  }

  lemma RenderCount(f: ForwardSpec)
    ensures Count(RenderForward(f), COLON) == Count(f.bindAddr, COLON) + Count(f.targetHost, COLON) + 3
  {
    var colon := [COLON];
    assert Count(colon, COLON) == 1 + Count(colon[1..], COLON);
    CountZero(Decimal(f.bindPort), COLON);
    CountZero(Decimal(f.targetPort), COLON);
    var tail := f.targetHost + colon + Decimal(f.targetPort);
    CountConcat(f.targetHost + colon, Decimal(f.targetPort), COLON);
    CountConcat(f.targetHost, colon, COLON);
    CountConcat(Decimal(f.bindPort) + colon, tail, COLON);
    CountConcat(Decimal(f.bindPort), colon, COLON);
    CountConcat(f.bindAddr + colon, Decimal(f.bindPort) + colon + tail, COLON);
    CountConcat(f.bindAddr, colon, COLON);
  }

  /** A specification can be written down exactly when neither host holds a colon, as IPv6 addresses do. */
  lemma ForwardRoundTripExactly(f: ForwardSpec)
    ensures ParseForward(RenderForward(f)) == Some(f) <==> COLON !in f.bindAddr && COLON !in f.targetHost
  {
    RenderCount(f);
    SplitCount(RenderForward(f), COLON);
    CountZero(f.bindAddr, COLON);
    CountZero(f.targetHost, COLON);
    if COLON !in f.bindAddr && COLON !in f.targetHost {
      var bindPort, targetPort := Decimal(f.bindPort), Decimal(f.targetPort);
      SplitHead(f.bindAddr, bindPort + [COLON] + (f.targetHost + [COLON] + targetPort), COLON);
      SplitHead(bindPort, f.targetHost + [COLON] + targetPort, COLON);
      SplitHead(f.targetHost, targetPort, COLON);
      assert COLON !in targetPort;
      ParseDecimal(f.bindPort);
      ParseDecimal(f.targetPort);
    }
  }

  /** The value of a LocalForward or RemoteForward line: one word, or the two halves apart. */
  function ParseConfigForward(value: string): Option<ForwardSpec> {
    var tokens := Tokens(value);
    if |tokens| == 1 then ParseForward(tokens[0])
    else if |tokens| == 2 then ParseForward(tokens[0] + [COLON] + tokens[1])
    else None
  }

  /** Both spellings of a clean specification mean the same. */
  lemma ConfigForwardSpellings(listen: string, target: string)
    requires AllClean([listen, target])
    ensures ParseConfigForward(Join([listen, target])) == ParseForward(listen + [COLON] + target)
    ensures ParseConfigForward(listen + [COLON] + target) == ParseForward(listen + [COLON] + target)
  {
    assert [listen, target][0] == listen && [listen, target][1] == target;
    JoinRoundTripExactly([listen, target]);
    var word := listen + [COLON] + target;
    assert AllClean([word]);
    JoinRoundTripExactly([word]);
    assert Join([word]) == word;
  }

  // ---------------------------------------------------------------------------
  // Lines
  // ---------------------------------------------------------------------------

  datatype Keyword =
    | HostLine | HostName | User | Port | IdentityFile | LocalForward | RemoteForward | ControlPath
    | ControlMaster | ControlPersist | Other

  function KeywordOf(word: string): Keyword {
    var w := Lower(word);
    if w == "host" then HostLine
    else if w == "hostname" then HostName
    else if w == "user" then User
    else if w == "port" then Port
    else if w == "identityfile" then IdentityFile
    else if w == "localforward" then LocalForward
    else if w == "remoteforward" then RemoteForward
    else if w == "controlpath" then ControlPath
    else if w == "controlmaster" then ControlMaster
    else if w == "controlpersist" then ControlPersist
    else Other
  }

  predicate ParseControlMaster(value: string) {
    var v := Lower(Trim(value));
    v == "yes" || v == "true" || v == "auto" || v == "autoask" || v == "ask"
  }

  datatype Config = Config(
    hostName: Option<string>,
    user: Option<string>,
    port: Option<U16>,
    identityFile: Option<string>,
    localForwards: seq<ForwardSpec>,
    remoteForwards: seq<ForwardSpec>,
    controlPath: Option<string>,
    controlMaster: Option<bool>,
    controlPersist: Option<string>)

  const EMPTY: Config := Config(None, None, None, None, [], [], None, None, None)

  /** `line` counts from one. */
  datatype ParseError = ParseError(keyword: Keyword, line: nat)

  function Or<T>(a: Option<T>, b: Option<T>): Option<T> {
    if a.Some? then a else b
  }

  /** What one setting of an active section does; `None` when its value is malformed. */
  function Apply(c: Config, keyword: Keyword, value: string): Option<Config> {
    match keyword
    case HostName => Some(c.(hostName := Or(c.hostName, Some(value))))
    case User => Some(c.(user := Or(c.user, Some(value))))
    case Port =>
      if c.port.Some? then Some(c)
      else if ParseU16(value).Some? then Some(c.(port := ParseU16(value)))
      else None
    case IdentityFile => Some(c.(identityFile := Or(c.identityFile, Some(value))))
    case LocalForward =>
      (match ParseConfigForward(value)
       case Some(f) => Some(c.(localForwards := c.localForwards + [f]))
       case None => None)
    case RemoteForward =>
      (match ParseConfigForward(value)
       case Some(f) => Some(c.(remoteForwards := c.remoteForwards + [f]))
       case None => None)
    case ControlPath => Some(c.(controlPath := Or(c.controlPath, Some(value))))
    case ControlMaster => Some(c.(controlMaster := Or(c.controlMaster, Some(ParseControlMaster(value)))))
    case ControlPersist => Some(c.(controlPersist := Or(c.controlPersist, Some(value))))
    case HostLine => Some(c)
    case Other => Some(c)
  }

  /** Where the parser stands between two lines. */
  datatype Section = Section(config: Config, active: bool)

  predicate IsHost(line: string) {
    Tokens(line) != [] && KeywordOf(Tokens(line)[0]) == HostLine
  }

  /** A keyword other than `Host` with at least one argument. */
  predicate IsSetting(line: string) {
    |Tokens(line)| >= 2 && KeywordOf(Tokens(line)[0]) != HostLine
  }

  function SettingName(line: string): Keyword
    requires IsSetting(line)
  {
    KeywordOf(Tokens(line)[0])
  }

  function Value(line: string): string
    requires IsSetting(line)
  {
    Join(Tokens(line)[1..])
  }

  function ParseLine(s: Section, line: string, host: string): Option<Section> {
    if IsHost(line) then Some(s.(active := HostPatterns.Selects(Tokens(line)[1..], host)))
    else if s.active && IsSetting(line) then
      match Apply(s.config, SettingName(line), Value(line))
      case Some(c) => Some(s.(config := c))
      case None => None
    else Some(s)
  }

  function ParseLines(lines: seq<string>, host: string): Result<Section, ParseError> {
    if lines == [] then Ok(Section(EMPTY, true))
    else
      match ParseLines(lines[..|lines| - 1], host)
      case Err(e) => Err(e)
      case Ok(s) =>
        var line := lines[|lines| - 1];
        match ParseLine(s, line, host)
        case Some(t) => Ok(t)
        case None => Err(ParseError(SettingName(line), |lines|))
  }

  /** The first bad line decides: what follows it is never read. */
  lemma {:induction false} ErrorIsFirst(lines: seq<string>, n: nat, host: string)
    requires n <= |lines| && ParseLines(lines[..n], host).Err?
    ensures ParseLines(lines, host) == ParseLines(lines[..n], host)
    decreases |lines| - n
  {
    if n == |lines| {
      assert lines[..n] == lines;
    } else {
      assert lines[..n + 1][..n] == lines[..n];
      ErrorIsFirst(lines, n + 1, host);
    }
  }

  lemma ParseNext(lines: seq<string>, n: nat, host: string)
    requires n < |lines| && ParseLines(lines[..n], host).Ok?
    ensures ParseLines(lines[..n + 1], host) ==
            match ParseLine(ParseLines(lines[..n], host).value, lines[n], host)
            case Some(t) => Ok(t)
            case None => Err(ParseError(SettingName(lines[n]), n + 1))
  {
    assert lines[..n + 1][..n] == lines[..n];
  }

  method ApplySetting(config: Config, keyword: Keyword, value: string) returns (r: Option<Config>)
    ensures r == Apply(config, keyword, value)
  {
    var c := config;
    match keyword {
      case HostName => c := c.(hostName := SetOnce(c.hostName, value));
      case User => c := c.(user := SetOnce(c.user, value));
      case Port =>
        if c.port.None? {
          var port := ParseU16(value);
          if port.None? {
            return None;
          }
          c := c.(port := port);
        }
      case IdentityFile => c := c.(identityFile := SetOnce(c.identityFile, value));
      case LocalForward =>
        var f := ParseConfigForward(value);
        if f.None? {
          return None;
        }
        c := c.(localForwards := c.localForwards + [f.value]);
      case RemoteForward =>
        var f := ParseConfigForward(value);
        if f.None? {
          return None;
        }
        c := c.(remoteForwards := c.remoteForwards + [f.value]);
      case ControlPath => c := c.(controlPath := SetOnce(c.controlPath, value));
      case ControlMaster =>
        if c.controlMaster.None? {
          c := c.(controlMaster := Some(ParseControlMaster(value)));
        }
      case ControlPersist => c := c.(controlPersist := SetOnce(c.controlPersist, value));
      case _ =>
    }
    return Some(c);
  }

  function SetOnce(slot: Option<string>, value: string): Option<string> {
    if slot.None? then Some(value) else slot
  }

  /** What a whole file gives for one host. */
  function Parsed(contents: string, host: string): Result<Config, ParseError> {
    match ParseLines(Lines(contents), host) case Ok(s) => Ok(s.config) case Err(e) => Err(e)
  }

  method Parse(contents: string, host: string) returns (r: Result<Config, ParseError>)
    ensures r == Parsed(contents, host)
  {
    var lines := Lines(contents);
    var config, active := EMPTY, true;
    for i := 0 to |lines|
      invariant ParseLines(lines[..i], host) == Ok(Section(config, active))
    {
      ParseNext(lines, i, host);
      var tokens := Tokenize(lines[i]);
      if tokens == [] {
        continue;
      }
      var keyword, args := KeywordOf(tokens[0]), tokens[1..];
      if keyword == HostLine {
        active := HostPatterns.HostPatternsMatch(args, host);
        continue;
      }
      if !active || args == [] {
        continue;
      }
      var next := ApplySetting(config, keyword, Join(args));
      if next.None? {
        ErrorIsFirst(lines, i + 1, host);
        return Err(ParseError(keyword, i + 1));
      }
      config := next.value;
    }
    assert lines[..|lines|] == lines;
    return Ok(config);
  }

  // ---------------------------------------------------------------------------
  // Meaning: the first value of each setting in the active sections
  // ---------------------------------------------------------------------------

  datatype Setting = Setting(keyword: Keyword, value: string)

  /** Whether the section open at the end of these lines applies: the last `Host` line decides. */
  predicate ActiveAfter(lines: seq<string>, host: string) {
    if lines == [] then true
    else if IsHost(lines[|lines| - 1]) then HostPatterns.Selects(Tokens(lines[|lines| - 1])[1..], host)
    else ActiveAfter(lines[..|lines| - 1], host)
  }

  function LineSettings(line: string, active: bool): seq<Setting> {
    if IsSetting(line) && active then [Setting(SettingName(line), Value(line))] else []
  }

  /** The settings of the active sections, in order. */
  function Settings(lines: seq<string>, host: string): seq<Setting> {
    if lines == [] then []
    else
      var init := lines[..|lines| - 1];
      Settings(init, host) + LineSettings(lines[|lines| - 1], ActiveAfter(init, host))
  }

  function First(settings: seq<Setting>, k: Keyword): Option<string> {
    if settings == [] then None
    else if settings[0].keyword == k then Some(settings[0].value)
    else First(settings[1..], k)
  }

  function AllForwards(settings: seq<Setting>, k: Keyword): seq<ForwardSpec> {
    if settings == [] then []
    else
      var f := ParseConfigForward(settings[0].value);
      (if settings[0].keyword == k && f.Some? then [f.value] else []) + AllForwards(settings[1..], k)
  }

  predicate IsForward(k: Keyword) {
    k == LocalForward || k == RemoteForward
  }

  predicate ForwardsValid(settings: seq<Setting>) {
    forall s <- settings :: IsForward(s.keyword) ==> ParseConfigForward(s.value).Some?
  }

  /** Only the first port is ever looked at; every forward is. */
  predicate Valid(settings: seq<Setting>) {
    && (First(settings, Port).Some? ==> ParseU16(First(settings, Port).value).Some?)
    && ForwardsValid(settings)
  }

  function PortOf(v: Option<string>): Option<U16> {
    if v.Some? then ParseU16(v.value) else None
  }

  function MasterOf(v: Option<string>): Option<bool> {
    if v.Some? then Some(ParseControlMaster(v.value)) else None
  }

  function Resolve(settings: seq<Setting>): Config {
    Config(First(settings, HostName), First(settings, User), PortOf(First(settings, Port)),
           First(settings, IdentityFile), AllForwards(settings, LocalForward), AllForwards(settings, RemoteForward),
           First(settings, ControlPath), MasterOf(First(settings, ControlMaster)), First(settings, ControlPersist))
  }

  lemma {:induction false} FirstConcat(s: seq<Setting>, t: seq<Setting>, k: Keyword)
    ensures First(s + t, k) == Or(First(s, k), First(t, k))
    decreases |s|
  {
    if s == [] {
      assert s + t == t;
    } else {
      assert (s + t)[1..] == s[1..] + t;
      FirstConcat(s[1..], t, k);
    }
  }

  lemma {:induction false} ForwardsConcat(s: seq<Setting>, t: seq<Setting>, k: Keyword)
    ensures AllForwards(s + t, k) == AllForwards(s, k) + AllForwards(t, k)
    decreases |s|
  {
    if s == [] {
      assert s + t == t;
    } else {
      assert (s + t)[1..] == s[1..] + t;
      ForwardsConcat(s[1..], t, k);
    }
  }

  function Merge(x: Config, y: Config): Config {
    Config(Or(x.hostName, y.hostName), Or(x.user, y.user), Or(x.port, y.port), Or(x.identityFile, y.identityFile),
           x.localForwards + y.localForwards, x.remoteForwards + y.remoteForwards, Or(x.controlPath, y.controlPath),
           Or(x.controlMaster, y.controlMaster), Or(x.controlPersist, y.controlPersist))
  }

  lemma ResolveConcat(s: seq<Setting>, t: seq<Setting>)
    requires Valid(s)
    ensures Resolve(s + t) == Merge(Resolve(s), Resolve(t))
    ensures Valid(s + t) <==> ForwardsValid(t) && (First(s, Port).None? ==> Valid(t))
  {
    FirstConcat(s, t, HostName);
    FirstConcat(s, t, User);
    FirstConcat(s, t, Port);
    FirstConcat(s, t, IdentityFile);
    FirstConcat(s, t, ControlPath);
    FirstConcat(s, t, ControlMaster);
    FirstConcat(s, t, ControlPersist);
    ForwardsConcat(s, t, LocalForward);
    ForwardsConcat(s, t, RemoteForward);
    ForwardsValidConcat(s, t);
  }

  lemma ForwardsValidConcat(s: seq<Setting>, t: seq<Setting>)
    ensures ForwardsValid(s + t) <==> ForwardsValid(s) && ForwardsValid(t)
  {
    assert forall x <- s :: x in s + t;
    assert forall x <- t :: x in s + t;
  }

  lemma ResolveOne(x: Setting)
    ensures forall k :: First([x], k) == if x.keyword == k then Some(x.value) else None
    ensures forall k :: AllForwards([x], k) ==
              if x.keyword == k && ParseConfigForward(x.value).Some? then [ParseConfigForward(x.value).value] else []
    ensures ForwardsValid([x]) <==> (IsForward(x.keyword) ==> ParseConfigForward(x.value).Some?)
  {
    assert [x][1..] == [];
    assert x in [x];
  }

  predicate Accepts(c: Config, x: Setting) {
    && (IsForward(x.keyword) ==> ParseConfigForward(x.value).Some?)
    && (x.keyword == Port && c.port.None? ==> ParseU16(x.value).Some?)
  }

  lemma ApplyScalar(c: Config, x: Setting)
    requires !IsForward(x.keyword) && x.keyword != HostLine
    ensures Apply(c, x.keyword, x.value) == if Accepts(c, x) then Some(Merge(c, Resolve([x]))) else None
  {
    ResolveOne(x);
    assert c.localForwards + [] == c.localForwards && c.remoteForwards + [] == c.remoteForwards;
  }

  lemma ResolveForward(x: Setting)
    requires IsForward(x.keyword)
    ensures var f := ParseConfigForward(x.value);
            var fs := if f.Some? then [f.value] else [];
            Resolve([x]) == if x.keyword == LocalForward then EMPTY.(localForwards := fs)
                            else EMPTY.(remoteForwards := fs)
  {
    ResolveOne(x);
  }

  lemma ApplyForward(c: Config, x: Setting)
    requires IsForward(x.keyword)
    ensures Apply(c, x.keyword, x.value) == if Accepts(c, x) then Some(Merge(c, Resolve([x]))) else None
  {
    ResolveForward(x);
    assert c.localForwards + [] == c.localForwards && c.remoteForwards + [] == c.remoteForwards;
  }

  lemma ValidOne(s: seq<Setting>, x: Setting)
    requires Valid(s)
    ensures Valid(s + [x]) <==> Accepts(Resolve(s), x)
  {
    FirstConcat(s, [x], Port);
    ForwardsValidConcat(s, [x]);
    ResolveOne(x);
  }

  lemma ApplyMeaning(s: seq<Setting>, x: Setting)
    requires Valid(s) && x.keyword != HostLine
    ensures Apply(Resolve(s), x.keyword, x.value) == if Valid(s + [x]) then Some(Resolve(s + [x])) else None
  {
    ResolveConcat(s, [x]);
    ValidOne(s, x);
    if IsForward(x.keyword) {
      ApplyForward(Resolve(s), x);
    } else {
      ApplyScalar(Resolve(s), x);
    }
  }

  /** Parsing succeeds exactly when the settings of the active sections are valid, and then each scalar
      is the first value and each list holds every forward. */
  lemma {:induction false} ParseMeaning(lines: seq<string>, host: string)
    ensures ParseLines(lines, host).Ok? <==> Valid(Settings(lines, host))
    ensures ParseLines(lines, host).Ok? ==>
              ParseLines(lines, host).value == Section(Resolve(Settings(lines, host)), ActiveAfter(lines, host))
    decreases |lines|
  {
    if lines != [] {
      var init, last := lines[..|lines| - 1], lines[|lines| - 1];
      ParseMeaning(init, host);
      var s := Settings(init, host);
      if IsSetting(last) && ActiveAfter(init, host) {
        var x := Setting(SettingName(last), Value(last));
        if Valid(s) {
          ApplyMeaning(s, x);
        } else {
          FirstConcat(s, [x], Port);
          ForwardsValidConcat(s, [x]);
        }
      } else {
        assert Settings(lines, host) == s;
      }
    }
  }

  // ---------------------------------------------------------------------------
  // Two files in a row
  // ---------------------------------------------------------------------------

  predicate HasHost(lines: seq<string>) {
    lines != [] && (IsHost(lines[|lines| - 1]) || HasHost(lines[..|lines| - 1]))
  }

  /** The first line that says anything is a `Host` line: any other has one before it. */
  predicate HostFirst(lines: seq<string>) {
    lines != [] ==>
      var init, last := lines[..|lines| - 1], lines[|lines| - 1];
      HostFirst(init) && (Tokens(last) == [] || IsHost(last) || HasHost(init))
  }

  lemma Regroup(s: seq<Setting>, t: seq<Setting>, u: seq<Setting>)
    ensures (s + t) + u == s + (t + u)
  {
  }

  lemma QuietLine(line: string, active: bool)
    requires Tokens(line) == [] || IsHost(line)
    ensures LineSettings(line, active) == []
  {
  }

  lemma {:induction false} SettingsConcat(a: seq<string>, b: seq<string>, host: string)
    requires HostFirst(b)
    ensures Settings(a + b, host) == Settings(a, host) + Settings(b, host)
    ensures HasHost(b) ==> ActiveAfter(a + b, host) == ActiveAfter(b, host)
    ensures !HasHost(b) ==> Settings(b, host) == []
    decreases |b|
  {
    if b == [] {
      assert a + b == a;
      assert Settings(a, host) + [] == Settings(a, host);
    } else {
      var init, last := b[..|b| - 1], b[|b| - 1];
      SettingsConcat(a, init, host);
      assert (a + b)[..|a + b| - 1] == a + init && (a + b)[|a + b| - 1] == last;
      var before, after := ActiveAfter(a + init, host), ActiveAfter(init, host);
      assert LineSettings(last, before) == LineSettings(last, after) by {
        if !HasHost(init) {
          QuietLine(last, before);
          QuietLine(last, after);
        }
      }
      if !HasHost(b) {
        QuietLine(last, after);
      }
      Regroup(Settings(a, host), Settings(init, host), LineSettings(last, after));
    }
  }

  /** Parsing two files in a row merges the first with the second's settings, the first winning; only a
      bad port of the second can be masked, by a port of the first, and then counts for nothing. */
  lemma MergeLaw(a: seq<string>, b: seq<string>, host: string)
    requires HostFirst(b) && ParseLines(a, host).Ok?
    ensures ParseLines(a + b, host).Ok? <==>
              ForwardsValid(Settings(b, host)) &&
              (ParseLines(a, host).value.config.port.None? ==> ParseLines(b, host).Ok?)
    ensures ParseLines(a + b, host).Ok? ==>
              ParseLines(a + b, host).value.config == Merge(ParseLines(a, host).value.config, Resolve(Settings(b, host)))
    ensures ParseLines(b, host).Ok? ==> ParseLines(b, host).value.config == Resolve(Settings(b, host))
  {
    ParseMeaning(a, host);
    ParseMeaning(b, host);
    ParseMeaning(a + b, host);
    SettingsConcat(a, b, host);
    ResolveConcat(Settings(a, host), Settings(b, host));
  }

  /** Without a bad line in either, the merge is unconditional. */
  lemma MergeParsed(a: seq<string>, b: seq<string>, host: string)
    requires HostFirst(b) && ParseLines(a, host).Ok? && ParseLines(b, host).Ok?
    ensures ParseLines(a + b, host).Ok?
    ensures ParseLines(a + b, host).value.config ==
            Merge(ParseLines(a, host).value.config, ParseLines(b, host).value.config)
  {
    MergeLaw(a, b, host);
    ParseMeaning(b, host);
  }

  lemma TwoWords(keyword: string, value: string)
    requires AllClean([keyword, value])
    ensures Tokens(keyword + " " + value) == [keyword, value] && Join([value]) == value
  {
    var words := [keyword, value];
    JoinRoundTripExactly(words);
    assert words[1..] == [value];
    assert Join(words) == keyword + " " + value;
  }

  const PORT: string := "port"
  const HOST: string := "host"

  lemma KnownWords()
    ensures KeywordOf(PORT) == Port && KeywordOf(HOST) == HostLine && Clean(PORT) && Clean(HOST)
  {
    PortWord();
    HostWord();
  }

  lemma PortWord()
    ensures KeywordOf(PORT) == Port && Clean(PORT)
  {
    LowerUnchanged(PORT);
    assert PORT[0] == 'p' && "user"[0] == 'u';
  }

  lemma HostWord()
    ensures KeywordOf(HOST) == HostLine && Clean(HOST)
  {
    LowerUnchanged(HOST);
    assert HOST[0] == 'h' && |"hostname"| == 8;
  }

  predicate PortLine(line: string, good: bool) {
    IsSetting(line) && SettingName(line) == Port && (ParseU16(Value(line)).Some? <==> good)
  }

  predicate OpensFor(line: string, host: string) {
    IsHost(line) && HostPatterns.Selects(Tokens(line)[1..], host)
  }

  lemma TwoLines(first: string, second: string, host: string)
    requires OpensFor(first, host) && IsSetting(second)
    ensures HostFirst([first, second])
    ensures Settings([first, second], host) == [Setting(SettingName(second), Value(second))]
  {
    var b := [first, second];
    assert b[..1] == [first] && [first][..0] == [];
    QuietLine(first, true);
    assert Settings([first], host) == [];
  }

  /** Any port in the first file masks any bad port in the second. */
  lemma PortMasked(good: string, opening: string, bad: string, host: string)
    requires PortLine(good, true) && OpensFor(opening, host) && PortLine(bad, false)
    ensures HostFirst([opening, bad]) && ParseLines([good], host).Ok?
    ensures ParseLines([opening, bad], host).Err? && ParseLines([good] + [opening, bad], host).Ok?
  {
    var a, b := [good], [opening, bad];
    TwoLines(opening, bad, host);
    assert a[..0] == [];
    assert Settings(a, host) == [Setting(Port, Value(good))];
    ResolveOne(Setting(Port, Value(good)));
    ResolveOne(Setting(Port, Value(bad)));
    ParseMeaning(a, host);
    ParseMeaning(b, host);
    MergeLaw(a, b, host);
  }

  lemma StarSelects(star: string, host: string)
    requires star == ['*']
    ensures HostPatterns.Selects([star], host)
  {
    assert Utf8.Encode(star) == [HostPatterns.STAR] by {
      assert star[1..] == [];
    }
    HostPatterns.StarMatchesAll(Utf8.Encode(host));
    assert star in [star];
  }

  lemma OneCharacterPort(c: char)
    ensures ParseU16([c]).Some? <==> IsDigit(c)
  {
    var s := [c];
    assert s[0] == c && s[1..] == [] && s[..0] == [];
    assert c in s && forall x <- s :: x == c;
    if IsDigit(c) {
      assert DigitsValue(s) == 10 * DigitsValue(s[..0]) + (c as int - '0' as int) < 0x1_0000;
    }
  }

  lemma PortLineOf(c: char)
    requires !IsSpecial(c)
    ensures PortLine(PORT + " " + [c], IsDigit(c))
  {
    KnownWords();
    assert AllClean([PORT, [c]]);
    TwoWords(PORT, [c]);
    assert [PORT, [c]][1..] == [[c]];
    OneCharacterPort(c);
  }

  lemma HostStar(star: string, host: string)
    requires star == ['*']
    ensures OpensFor(HOST + " " + star, host)
  {
    KnownWords();
    assert AllClean([HOST, star]);
    TwoWords(HOST, star);
    assert [HOST, star][1..] == [star];
    StarSelects(star, host);
  }

  /** A file that does not parse on its own may parse after another. */
  lemma BadPortMasked(host: string)
    ensures var a, b := [PORT + " " + ['7']], [HOST + " " + ['*'], PORT + " " + ['x']];
            HostFirst(b) && ParseLines(a, host).Ok? && ParseLines(b, host).Err? && ParseLines(a + b, host).Ok?
  {
    PortLineOf('7');
    PortLineOf('x');
    HostStar(['*'], host);
    PortMasked(PORT + " " + ['7'], HOST + " " + ['*'], PORT + " " + ['x'], host);
  }
}
