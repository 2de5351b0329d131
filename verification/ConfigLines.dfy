/** What the lines of an ssh_config file mean, spelled out: each keyword under its own name, each value
    in its own form, and the first value of a setting against later ones. */
module ConfigLines {
  import opened Wrappers
  import opened Text
  import opened Tokenizer
  import opened SshConfig
  import HostPatterns
  import M = Messages

  // ---------------------------------------------------------------------------
  // Keywords
  // ---------------------------------------------------------------------------

  /** A word of small letters stands for all its spellings. */
  lemma Spelling(word: string, name: string)
    requires forall i :: 0 <= i < |name| ==> !('A' <= name[i] <= 'Z')
    ensures Lower(word) == name <==> SameSpelling(word, name)
  {
    LowerUnchanged(name);
    LowerExactly(word, name);
  }

  lemma ShortKeywords(word: string)
    ensures Lower(word) == "host" <==> SameSpelling(word, "host")
    ensures Lower(word) == "user" <==> SameSpelling(word, "user")
    ensures Lower(word) == "port" <==> SameSpelling(word, "port")
    ensures Lower(word) == "hostname" <==> SameSpelling(word, "hostname")
  {
    Spelling(word, "host");
    Spelling(word, "user");
    Spelling(word, "port");
    Spelling(word, "hostname");
  }

  lemma ForwardKeywords(word: string)
    ensures Lower(word) == "identityfile" <==> SameSpelling(word, "identityfile")
    ensures Lower(word) == "localforward" <==> SameSpelling(word, "localforward")
    ensures Lower(word) == "remoteforward" <==> SameSpelling(word, "remoteforward")
  {
    Spelling(word, "identityfile");
    Spelling(word, "localforward");
    Spelling(word, "remoteforward");
  }

  lemma ControlKeywords(word: string)
    ensures Lower(word) == "controlpath" <==> SameSpelling(word, "controlpath")
    ensures Lower(word) == "controlmaster" <==> SameSpelling(word, "controlmaster")
    ensures Lower(word) == "controlpersist" <==> SameSpelling(word, "controlpersist")
  {
    Spelling(word, "controlpath");
    Spelling(word, "controlmaster");
    Spelling(word, "controlpersist");
  }

  /** The ten names, told apart by length and first letter. */
  lemma Distinct(w: string)
    ensures w == "host" ==> |w| == 4 && w[0] == 'h'
    ensures w == "user" ==> |w| == 4 && w[0] == 'u'
    ensures w == "port" ==> |w| == 4 && w[0] == 'p'
    ensures w == "hostname" ==> |w| == 8
    ensures w == "controlpath" ==> |w| == 11
    ensures w == "identityfile" ==> |w| == 12 && w[0] == 'i'
    ensures w == "localforward" ==> |w| == 12 && w[0] == 'l'
    ensures w == "remoteforward" ==> |w| == 13 && w[0] == 'r'
    ensures w == "controlmaster" ==> |w| == 13 && w[0] == 'c'
    ensures w == "controlpersist" ==> |w| == 14
  {
  }

  lemma KeywordExactly(word: string)
    ensures KeywordOf(word) == HostLine <==> SameSpelling(word, "host")
    ensures KeywordOf(word) == HostName <==> SameSpelling(word, "hostname")
    ensures KeywordOf(word) == User <==> SameSpelling(word, "user")
    ensures KeywordOf(word) == Port <==> SameSpelling(word, "port")
    ensures KeywordOf(word) == IdentityFile <==> SameSpelling(word, "identityfile")
    ensures KeywordOf(word) == LocalForward <==> SameSpelling(word, "localforward")
    ensures KeywordOf(word) == RemoteForward <==> SameSpelling(word, "remoteforward")
    ensures KeywordOf(word) == ControlPath <==> SameSpelling(word, "controlpath")
    ensures KeywordOf(word) == ControlMaster <==> SameSpelling(word, "controlmaster")
    ensures KeywordOf(word) == ControlPersist <==> SameSpelling(word, "controlpersist")
  {
    ShortKeywords(word);
    ForwardKeywords(word);
    ControlKeywords(word);
    Distinct(Lower(word));
  }

  // ---------------------------------------------------------------------------
  // Values
  // ---------------------------------------------------------------------------

  /** `[bind_addr:]bind_port:target_host:target_port` for this forward, with the loopback address where
      none is given. */
  ghost predicate Denotes(s: string, f: ForwardSpec) {
    exists port: string, targetPort: string ::
      && Spells(port, f.bindPort) && Spells(targetPort, f.targetPort) && ':' !in f.targetHost
      && ((f.bindAddr == "127.0.0.1" && s == port + [':'] + (f.targetHost + [':'] + targetPort))
          || (':' !in f.bindAddr && s == f.bindAddr + [':'] + (port + [':'] + (f.targetHost + [':'] + targetPort))))
  }

  lemma NumeralHasNoColon(s: string, p: U16)
    requires Spells(s, p)
    ensures ':' !in s
  {
    var zeros: string :| AllZeros(zeros) && (s == zeros + Decimal(p) || s == ['+'] + (zeros + Decimal(p)));
    assert forall c <- Decimal(p) :: IsDigit(c);
  }

  lemma GlueThree(a: string, b: string, d: string)
    ensures Glue([a, b, d], ':') == a + [':'] + (b + [':'] + d)
  {
    assert [a, b, d][1..] == [b, d] && [b, d][1..] == [d];
    assert Glue([d], ':') == d && Glue([b, d], ':') == b + [':'] + d;
  }

  lemma GlueFour(a: string, b: string, d: string, e: string)
    ensures Glue([a, b, d, e], ':') == a + [':'] + (b + [':'] + (d + [':'] + e))
  {
    assert [a, b, d, e][1..] == [b, d, e];
    GlueThree(b, d, e);
  }

  lemma ThreeParts(s: string, port: string, f: ForwardSpec, targetPort: string)
    requires Spells(port, f.bindPort) && Spells(targetPort, f.targetPort) && ':' !in f.targetHost
    requires f.bindAddr == "127.0.0.1" && s == port + [':'] + (f.targetHost + [':'] + targetPort)
    ensures ParseForward(s) == Some(f)
  {
    NumeralHasNoColon(port, f.bindPort);
    NumeralHasNoColon(targetPort, f.targetPort);
    GlueThree(port, f.targetHost, targetPort);
    SplitExactly(s, ':', [port, f.targetHost, targetPort]);
    ParseU16Exactly(port, f.bindPort);
    ParseU16Exactly(targetPort, f.targetPort);
  }

  lemma FourParts(s: string, port: string, f: ForwardSpec, targetPort: string)
    requires Spells(port, f.bindPort) && Spells(targetPort, f.targetPort) && ':' !in f.targetHost && ':' !in f.bindAddr
    requires s == f.bindAddr + [':'] + (port + [':'] + (f.targetHost + [':'] + targetPort))
    ensures ParseForward(s) == Some(f)
  {
    NumeralHasNoColon(port, f.bindPort);
    NumeralHasNoColon(targetPort, f.targetPort);
    GlueFour(f.bindAddr, port, f.targetHost, targetPort);
    SplitExactly(s, ':', [f.bindAddr, port, f.targetHost, targetPort]);
    ParseU16Exactly(port, f.bindPort);
    ParseU16Exactly(targetPort, f.targetPort);
  }

  lemma MadeFrom(s: string, addr: string, port: string, target: string, targetPort: string, f: ForwardSpec)
    requires MakeForward(addr, port, target, targetPort) == Some(f) && ':' !in target
    requires (addr == "127.0.0.1" && s == port + [':'] + (target + [':'] + targetPort))
             || (':' !in addr && s == addr + [':'] + (port + [':'] + (target + [':'] + targetPort)))
    ensures Denotes(s, f)
  {
    ParseU16Exactly(port, f.bindPort);
    ParseU16Exactly(targetPort, f.targetPort);
  }

  /** A specification is read as the one forward that it denotes, or as none. */
  lemma ForwardExactly(s: string, f: ForwardSpec)
    ensures ParseForward(s) == Some(f) <==> Denotes(s, f)
  {
    if Denotes(s, f) {
      var port: string, targetPort: string :|
        && Spells(port, f.bindPort) && Spells(targetPort, f.targetPort) && ':' !in f.targetHost
        && ((f.bindAddr == "127.0.0.1" && s == port + [':'] + (f.targetHost + [':'] + targetPort))
            || (':' !in f.bindAddr && s == f.bindAddr + [':'] + (port + [':'] + (f.targetHost + [':'] + targetPort))));
      if s == port + [':'] + (f.targetHost + [':'] + targetPort) && f.bindAddr == "127.0.0.1" {
        ThreeParts(s, port, f, targetPort);
      } else {
        FourParts(s, port, f, targetPort);
      }
    }
    if ParseForward(s) == Some(f) {
      var parts := Split(s, ':');
      SplitExactly(s, ':', parts);
      if |parts| == 3 {
        assert parts == [parts[0], parts[1], parts[2]];
        GlueThree(parts[0], parts[1], parts[2]);
        MadeFrom(s, LOOPBACK, parts[0], parts[1], parts[2], f);
      } else {
        assert parts == [parts[0], parts[1], parts[2], parts[3]];
        GlueFour(parts[0], parts[1], parts[2], parts[3]);
        MadeFrom(s, parts[0], parts[1], parts[2], parts[3], f);
      }
    }
  }

  /** The words that turn connection sharing on. */
  predicate IsYes(value: string) {
    SameSpelling(value, "yes") || SameSpelling(value, "true") || SameSpelling(value, "auto")
    || SameSpelling(value, "autoask") || SameSpelling(value, "ask")
  }

  lemma ControlMasterExactly(value: string)
    requires value != [] && Clean(value)
    ensures ParseControlMaster(value) <==> IsYes(value)
  {
    TrimUnchanged(value);
    Spelling(value, "yes");
    Spelling(value, "true");
    Spelling(value, "auto");
    Spelling(value, "autoask");
    Spelling(value, "ask");
  }

  // ---------------------------------------------------------------------------
  // Lines
  // ---------------------------------------------------------------------------

  /** Words that stand for themselves. */
  predicate Plainly(words: seq<string>) {
    words != [] && AllClean(words)
  }

  lemma {:induction false} OneLine(words: seq<string>)
    requires Plainly(words)
    ensures '\n' !in Join(words) && Join(words) != []
    decreases |words|
  {
    assert words[0] != [] && Clean(words[0]);
    assert IsWhitespace('\n') && !IsWhitespace('x');
    assert '\n' !in words[0];
    if |words| > 1 {
      assert Plainly(words[1..]) by {
        assert forall i :: 0 <= i < |words| - 1 ==> words[1..][i] == words[i + 1];
      }
      OneLine(words[1..]);
    }
  }

  /** A setting on a line of its own, with the words of its value. */
  ghost predicate IsLine(line: string, name: string, value: seq<string>) {
    Plainly([name]) && Plainly(value) && line == Join([name] + value)
  }

  /** A name, a space and the value is such a line. */
  lemma WrittenLine(name: string, value: string)
    requires Plainly([name]) && Plainly([value])
    ensures IsLine(name + " " + value, name, [value])
  {
    JoinSpaces([name], [value]);
    assert Join([name]) == name && Join([value]) == value;
  }

  lemma LineWords(line: string, name: string, value: seq<string>)
    requires IsLine(line, name, value)
    ensures Tokens(line) == [name] + value && '\n' !in line && line != []
  {
    var words := [name] + value;
    assert AllClean(words) by {
      assert forall i :: 1 <= i < |words| ==> words[i] == value[i - 1];
      assert words[0] == [name][0];
    }
    JoinRoundTripExactly(words);
    OneLine(words);
  }

  lemma LineMeaning(line: string, name: string, value: seq<string>)
    requires IsLine(line, name, value)
    ensures IsHost(line) <==> SameSpelling(name, "host")
    ensures !IsHost(line) ==> IsSetting(line) && SettingName(line) == KeywordOf(name) && Value(line) == Join(value)
  {
    LineWords(line, name, value);
    KeywordExactly(name);
    assert Tokens(line)[1..] == value;
  }

  lemma FileOfOne(line: string, host: string)
    requires '\n' !in line && line != []
    ensures Lines(line) == [line]
    ensures Parsed(line, host) ==
            var t := ParseLine(Section(EMPTY, true), line, host);
            if t.Some? then Ok(t.value.config) else Err(ParseError(SettingName(line), 1))
  {
    assert Lines(line) == [line];
    assert [line][..0] == [];
    assert ParseLines([line][..0], host) == Ok(Section(EMPTY, true));
  }

  lemma AppliedLine(line: string, name: string, value: seq<string>, host: string)
    requires IsLine(line, name, value) && !SameSpelling(name, "host")
    ensures Parsed(line, host) ==
            var c := Apply(EMPTY, KeywordOf(name), Join(value));
            if c.Some? then Ok(c.value) else Err(ParseError(KeywordOf(name), 1))
  {
    LineWords(line, name, value);
    LineMeaning(line, name, value);
    FileOfOne(line, host);
  }

  /** The configuration that one setting gives. */
  ghost predicate Gives(name: string, value: seq<string>, r: Result<Config, ParseError>) {
    && (SameSpelling(name, "hostname") ==> r == Ok(EMPTY.(hostName := Some(Join(value)))))
    && (SameSpelling(name, "user") ==> r == Ok(EMPTY.(user := Some(Join(value)))))
    && (SameSpelling(name, "identityfile") ==> r == Ok(EMPTY.(identityFile := Some(Join(value)))))
    && (SameSpelling(name, "controlpath") ==> r == Ok(EMPTY.(controlPath := Some(Join(value)))))
    && (SameSpelling(name, "controlpersist") ==> r == Ok(EMPTY.(controlPersist := Some(Join(value)))))
  }

  lemma ScalarLine(line: string, name: string, value: seq<string>, host: string)
    requires IsLine(line, name, value)
    ensures Gives(name, value, Parsed(line, host))
  {
    LineWords(line, name, value);
    LineMeaning(line, name, value);
    KeywordExactly(name);
    FileOfOne(line, host);
  }

  /** A port line gives the port that its value spells, and is an error if it spells none. */
  lemma PortLineMeaning(line: string, name: string, value: string, host: string)
    requires IsLine(line, name, [value]) && SameSpelling(name, "port")
    ensures forall p: U16 :: Spells(value, p) ==> Parsed(line, host) == Ok(EMPTY.(port := Some(p)))
    ensures Parsed(line, host).Err? <==> forall p: U16 :: !Spells(value, p)
  {
    LineWords(line, name, [value]);
    LineMeaning(line, name, [value]);
    KeywordExactly(name);
    FileOfOne(line, host);
    forall p: U16 ensures Spells(value, p) <==> ParseU16(value) == Some(p) {
      ParseU16Exactly(value, p);
    }
    if ParseU16(value).Some? {
      assert Spells(value, ParseU16(value).value);
    }
  }

  lemma ForwardValue(value: seq<string>)
    requires Plainly(value)
    ensures ParseConfigForward(Join(value)) ==
            if |value| == 1 then ParseForward(value[0])
            else if |value| == 2 then ParseForward(value[0] + [':'] + value[1])
            else None
  {
    JoinRoundTripExactly(value);
  }

  /** The text of a forward in one word, or its two halves in two. */
  function ForwardText(value: seq<string>): string {
    if |value| == 1 then value[0] else if |value| == 2 then value[0] + [':'] + value[1] else []
  }

  lemma NothingDenoted(f: ForwardSpec)
    ensures !Denotes([], f)
  {
  }

  lemma ForwardDenoted(value: seq<string>, f: ForwardSpec)
    requires Plainly(value)
    ensures Denotes(ForwardText(value), f) <==> ParseConfigForward(Join(value)) == Some(f)
  {
    ForwardValue(value);
    ForwardExactly(ForwardText(value), f);
    NothingDenoted(f);
  }

  /** A forward line gives the forward that its value denotes, in the list of its own direction. */
  lemma ForwardLineMeaning(line: string, name: string, value: seq<string>, f: ForwardSpec, host: string)
    requires IsLine(line, name, value) && Denotes(ForwardText(value), f)
    ensures SameSpelling(name, "localforward") ==> Parsed(line, host) == Ok(EMPTY.(localForwards := [f]))
    ensures SameSpelling(name, "remoteforward") ==> Parsed(line, host) == Ok(EMPTY.(remoteForwards := [f]))
  {
    KeywordExactly(name);
    ForwardDenoted(value, f);
    if !SameSpelling(name, "host") {
      AppliedLine(line, name, value, host);
    }
    assert [] + [f] == [f];
  }

  /** It is an error if the value denotes none. */
  lemma BadForwardLine(line: string, name: string, value: seq<string>, host: string)
    requires IsLine(line, name, value) && forall f :: !Denotes(ForwardText(value), f)
    ensures SameSpelling(name, "localforward") ==> Parsed(line, host) == Err(ParseError(LocalForward, 1))
    ensures SameSpelling(name, "remoteforward") ==> Parsed(line, host) == Err(ParseError(RemoteForward, 1))
  {
    KeywordExactly(name);
    var parsed := ParseConfigForward(Join(value));
    if parsed.Some? {
      ForwardDenoted(value, parsed.value);
    }
    if !SameSpelling(name, "host") {
      AppliedLine(line, name, value, host);
    }
  }

  lemma ControlMasterLine(line: string, name: string, value: string, host: string)
    requires IsLine(line, name, [value]) && SameSpelling(name, "controlmaster")
    ensures Parsed(line, host) == Ok(EMPTY.(controlMaster := Some(IsYes(value))))
  {
    LineWords(line, name, [value]);
    LineMeaning(line, name, [value]);
    KeywordExactly(name);
    FileOfOne(line, host);
    assert value == [value][0];
    ControlMasterExactly(value);
  }

  /** Any other name is ignored, whatever its value. */
  lemma OtherLine(line: string, name: string, value: seq<string>, host: string)
    requires IsLine(line, name, value)
    requires !SameSpelling(name, "hostname") && !SameSpelling(name, "user") && !SameSpelling(name, "port")
    requires !SameSpelling(name, "identityfile") && !SameSpelling(name, "localforward")
    requires !SameSpelling(name, "remoteforward") && !SameSpelling(name, "controlpath")
    requires !SameSpelling(name, "controlmaster") && !SameSpelling(name, "controlpersist")
    ensures Parsed(line, host) == Ok(EMPTY)
  {
    LineWords(line, name, value);
    LineMeaning(line, name, value);
    KeywordExactly(name);
    FileOfOne(line, host);
  }

  // ---------------------------------------------------------------------------
  // Two lines
  // ---------------------------------------------------------------------------

  lemma FileOfTwo(first: string, second: string, host: string, s: Section)
    requires ParseLines([first], host) == Ok(s)
    requires '\n' !in first && '\n' !in second && second != [] && (first == [] || first[|first| - 1] != '\r')
    ensures Lines(first + ['\n'] + second) == [first, second]
    ensures Parsed(first + ['\n'] + second, host) ==
            var t := ParseLine(s, second, host);
            if t.Some? then Ok(t.value.config) else Err(ParseError(SettingName(second), 2))
  {
    LinesStep(first, second);
    assert Lines(second) == [second];
    assert [first] + [second] == [first, second] && [first, second][..1] == [first];
  }

  lemma NoReturn(line: string, name: string, value: seq<string>)
    requires IsLine(line, name, value)
    ensures line[|line| - 1] != '\r'
  {
    var words := [name] + value;
    LineWords(line, name, value);
    LastOfJoin(words);
    var last := words[|words| - 1];
    assert last == value[|value| - 1] && Clean(last) && IsWhitespace('\r');
  }

  lemma {:induction false} LastOfJoin(words: seq<string>)
    requires words != [] && words[|words| - 1] != []
    ensures Join(words) != [] && Join(words)[|Join(words)| - 1] == words[|words| - 1][|words[|words| - 1]| - 1]
    decreases |words|
  {
    if |words| > 1 {
      LastOfJoin(words[1..]);
    }
  }

  lemma ParsedOne(line: string, name: string, value: seq<string>, host: string)
    requires IsLine(line, name, value)
    ensures ParseLines([line], host) ==
            var t := ParseLine(Section(EMPTY, true), line, host);
            if t.Some? then Ok(t.value) else Err(ParseError(SettingName(line), 1))
  {
    assert [line][..0] == [];
    assert ParseLines([line][..0], host) == Ok(Section(EMPTY, true));
  }

  lemma AppliedTwo(first: string, n1: string, v: seq<string>, second: string, n2: string, w: seq<string>, host: string,
                   c: Config, d: Config)
    requires IsLine(first, n1, v) && IsLine(second, n2, w)
    requires !SameSpelling(n1, "host") && !SameSpelling(n2, "host")
    requires Apply(EMPTY, KeywordOf(n1), Join(v)) == Some(c) && Apply(c, KeywordOf(n2), Join(w)) == Some(d)
    ensures Parsed(first + ['\n'] + second, host) == Ok(d)
  {
    LineWords(first, n1, v);
    LineWords(second, n2, w);
    NoReturn(first, n1, v);
    LineMeaning(first, n1, v);
    LineMeaning(second, n2, w);
    ParsedOne(first, n1, v, host);
    FileOfTwo(first, second, host, Section(c, true));
  }

  /** Of two values for one setting the first counts, and values for two settings are both kept. */
  lemma FirstValueCounts(first: string, n1: string, v: seq<string>, second: string, n2: string, w: seq<string>, host: string)
    requires IsLine(first, n1, v) && IsLine(second, n2, w) && SameSpelling(n1, "user")
    ensures SameSpelling(n2, "user") ==> Parsed(first + ['\n'] + second, host) == Ok(EMPTY.(user := Some(Join(v))))
    ensures SameSpelling(n2, "hostname") ==>
              Parsed(first + ['\n'] + second, host) == Ok(EMPTY.(user := Some(Join(v)), hostName := Some(Join(w))))
  {
    KeywordExactly(n1);
    KeywordExactly(n2);
    var c := EMPTY.(user := Some(Join(v)));
    if KeywordOf(n2) == User {
      AppliedTwo(first, n1, v, second, n2, w, host, c, c);
    }
    if KeywordOf(n2) == HostName {
      AppliedTwo(first, n1, v, second, n2, w, host, c, c.(hostName := Some(Join(w))));
    }
  }

  /** Forwards are all kept, in order. */
  lemma ForwardsAdd(first: string, n1: string, v: seq<string>, f: ForwardSpec,
                    second: string, n2: string, w: seq<string>, g: ForwardSpec, host: string)
    requires IsLine(first, n1, v) && IsLine(second, n2, w)
    requires SameSpelling(n1, "localforward") && SameSpelling(n2, "localforward")
    requires Denotes(ForwardText(v), f) && Denotes(ForwardText(w), g)
    ensures Parsed(first + ['\n'] + second, host) == Ok(EMPTY.(localForwards := [f, g]))
  {
    KeywordExactly(n1);
    KeywordExactly(n2);
    ForwardDenoted(v, f);
    ForwardDenoted(w, g);
    assert [] + [f] == [f] && [f] + [g] == [f, g];
    AppliedTwo(first, n1, v, second, n2, w, host, EMPTY.(localForwards := [f]), EMPTY.(localForwards := [f, g]));
  }

  /** A setting after a `Host` line counts exactly when the patterns of that line select the host. */
  lemma HostSection(first: string, n1: string, patterns: seq<string>, second: string, n2: string, w: seq<string>, host: string)
    requires IsLine(first, n1, patterns) && IsLine(second, n2, w) && SameSpelling(n1, "host") && SameSpelling(n2, "user")
    ensures Parsed(first + ['\n'] + second, host) ==
            Ok(if HostPatterns.Selects(patterns, host) then EMPTY.(user := Some(Join(w))) else EMPTY)
  {
    LineWords(first, n1, patterns);
    LineWords(second, n2, w);
    NoReturn(first, n1, patterns);
    LineMeaning(first, n1, patterns);
    LineMeaning(second, n2, w);
    KeywordExactly(n2);
    ParsedOne(first, n1, patterns, host);
    FileOfTwo(first, second, host, ParseLines([first], host).value);
    assert ([n1] + patterns)[1..] == patterns;
  }
}
