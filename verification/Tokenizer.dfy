/** Splitting a line of ssh_config into words, with quotes, backslashes and comments. */
module Tokenizer {
  import opened Wrappers
  import opened Text

  const BACKSLASH: char := '\\'
  const SINGLE: char := '\''
  const DOUBLE: char := '\"'

  /** `done` once a comment has begun. */
  datatype State = State(tokens: seq<string>, current: string, quote: Option<char>, escaped: bool, done: bool)

  const START: State := State([], [], None, false, false)

  predicate IsSeparator(c: char) {
    c == '=' || IsWhitespace(c)
  }

  /** Characters that never stand for themselves outside quotes. */
  predicate IsMark(c: char) {
    c == BACKSLASH || c == SINGLE || c == DOUBLE || c == '#'
  }

  function Flush(tokens: seq<string>, current: string): seq<string> {
    if current == [] then tokens else tokens + [current]
  }

  function Step(s: State, c: char): State {
    if s.done then s
    else if s.escaped then s.(current := s.current + [c], escaped := false)
    else if c == BACKSLASH then s.(escaped := true)
    else if (c == SINGLE || c == DOUBLE) && s.quote == Some(c) then s.(quote := None)
    else if s.quote.Some? then s.(current := s.current + [c])
    else if c == SINGLE || c == DOUBLE then s.(quote := Some(c))
    else if c == '#' then s.(done := true)
    else if IsSeparator(c) then s.(tokens := Flush(s.tokens, s.current), current := [])
    else s.(current := s.current + [c])
  }

  function Run(s: State, line: string): State
    decreases |line|
  {
    if line == [] then s else Run(Step(s, line[0]), line[1..])
  }

  /** The words of a line. */
  function Tokens(line: string): seq<string> {
    var s := Run(START, line);
    Flush(s.tokens, s.current)
  }

  lemma {:induction false} RunConcat(s: State, a: string, b: string)
    ensures Run(s, a + b) == Run(Run(s, a), b)
    decreases |a|
  {
    if a == [] {
      assert a + b == b;
    } else {
      assert (a + b)[1..] == a[1..] + b;
      RunConcat(Step(s, a[0]), a[1..], b);
    }
  }

  lemma RunOne(s: State, line: string, c: char)
    ensures Run(s, line + [c]) == Step(Run(s, line), c)
  {
    RunConcat(s, line, [c]);
    assert Run(Run(s, line), [c]) == Run(Step(Run(s, line), c), [c][1..]);
  }

  lemma {:induction false} RunDone(s: State, line: string)
    requires s.done
    ensures Run(s, line) == s
    decreases |line|
  {
    if line != [] {
      RunDone(s, line[1..]);
    }
  }

  method Tokenize(line: string) returns (tokens: seq<string>)
    ensures tokens == Tokens(line)
  {
    tokens := [];
    var current, quote, escaped := [], None, false;
    var i := 0;
    while i < |line|
      invariant i <= |line|
      invariant Run(START, line[..i]) == State(tokens, current, quote, escaped, false)
    {
      var ch := line[i];
      assert line[..i + 1] == line[..i] + [ch];
      RunOne(START, line[..i], ch);
      i := i + 1;
      if escaped {
        current, escaped := current + [ch], false;
        continue;
      }
      if ch == BACKSLASH {
        escaped := true;
      } else if (ch == SINGLE || ch == DOUBLE) && quote == Some(ch) {
        quote := None;
      } else if (ch == SINGLE || ch == DOUBLE) && quote == None {
        quote := Some(ch);
      } else if ch == '#' && quote == None {
        assert line[..i] + line[i..] == line;
        RunConcat(START, line[..i], line[i..]);
        RunDone(Run(START, line[..i]), line[i..]);
        return Flush(tokens, current);
      } else if IsSeparator(ch) && quote == None {
        tokens, current := Flush(tokens, current), [];
      } else {
        current := current + [ch];
      }
    }
    assert line[..i] == line;
    tokens := Flush(tokens, current);
  }

  // ---------------------------------------------------------------------------
  // Quoting
  // ---------------------------------------------------------------------------

  /** A backslash before each double quote and each backslash. */
  function Escape(t: string): string {
    if t == [] then []
    else (if t[0] == DOUBLE || t[0] == BACKSLASH then [BACKSLASH, t[0]] else [t[0]]) + Escape(t[1..])
  }

  function Quote(t: string): string {
    [DOUBLE] + Escape(t) + [DOUBLE]
  }

  function QuoteAll(tokens: seq<string>): seq<string> {
    if tokens == [] then [] else [Quote(tokens[0])] + QuoteAll(tokens[1..])
  }

  function NonEmpty(tokens: seq<string>): seq<string> {
    if tokens == [] then []
    else (if tokens[0] == [] then [] else [tokens[0]]) + NonEmpty(tokens[1..])
  }

  function Quoted(tokens: seq<string>, current: string): State {
    State(tokens, current, Some(DOUBLE), false, false)
  }

  lemma {:induction false} RunEscaped(tokens: seq<string>, current: string, t: string)
    ensures Run(Quoted(tokens, current), Escape(t)) == Quoted(tokens, current + t)
    decreases |t|
  {
    if t == [] {
      assert current + t == current;
    } else {
      var head := if t[0] == DOUBLE || t[0] == BACKSLASH then [BACKSLASH, t[0]] else [t[0]];
      RunConcat(Quoted(tokens, current), head, Escape(t[1..]));
      assert Run(Quoted(tokens, current), head) == Quoted(tokens, current + [t[0]]) by {
        RunOne(Quoted(tokens, current), [], BACKSLASH);
        RunOne(Quoted(tokens, current), [], t[0]);
        RunOne(Quoted(tokens, current), [BACKSLASH], t[0]);
        assert [] + [BACKSLASH] == [BACKSLASH] && [] + [t[0]] == [t[0]];
        assert [BACKSLASH] + [t[0]] == [BACKSLASH, t[0]];
      }
      RunEscaped(tokens, current + [t[0]], t[1..]);
      assert current + [t[0]] + t[1..] == current + t;
    }
  }

  function Plain(tokens: seq<string>, current: string): State {
    State(tokens, current, None, false, false)
  }

  lemma RunQuote(tokens: seq<string>, t: string)
    ensures Run(Plain(tokens, []), Quote(t)) == Plain(tokens, t)
  {
    var q := [DOUBLE];
    assert Quote(t) == q + (Escape(t) + q);
    RunConcat(Plain(tokens, []), q, Escape(t) + q);
    assert Run(Plain(tokens, []), q) == Quoted(tokens, []) by {
      assert q[1..] == [];
    }
    RunConcat(Quoted(tokens, []), Escape(t), q);
    RunEscaped(tokens, [], t);
    assert [] + t == t;
    assert Run(Quoted(tokens, t), q) == Plain(tokens, t) by {
      assert q[1..] == [];
    }
  }

  lemma RunSpace(before: seq<string>, word: string, rest: string)
    ensures Run(Plain(before, word), " " + rest) == Run(Plain(Flush(before, word), []), rest)
  {
    var space := " ";
    assert (space + rest)[1..] == rest;
  }

  lemma RunQuotedWord(before: seq<string>, word: string, rest: string)
    ensures Run(Plain(before, []), Quote(word) + (" " + rest)) == Run(Plain(Flush(before, word), []), rest)
  {
    RunQuote(before, word);
    RunConcat(Plain(before, []), Quote(word), " " + rest);
    RunSpace(before, word, rest);
  }

  lemma {:induction false} RunQuoted(before: seq<string>, tokens: seq<string>)
    ensures var s := Run(Plain(before, []), Join(QuoteAll(tokens)));
            Flush(s.tokens, s.current) == before + NonEmpty(tokens)
    decreases |tokens|
  {
    if tokens == [] {
      assert before + [] == before;
    } else {
      var first, rest := Quote(tokens[0]), QuoteAll(tokens[1..]);
      if rest == [] {
        RunQuote(before, tokens[0]);
        assert QuoteAll(tokens) == [first];
        assert NonEmpty(tokens[1..]) == [];
      } else {
        assert QuoteAll(tokens)[1..] == rest;
        assert Join(QuoteAll(tokens)) == first + (" " + Join(rest));
        RunQuotedWord(before, tokens[0], Join(rest));
        var next := Flush(before, tokens[0]);
        RunQuoted(next, tokens[1..]);
        assert next + NonEmpty(tokens[1..]) == before + NonEmpty(tokens);
      }
    }
  }

  /** Quoting: any words come back, except that empty ones vanish. */
  lemma QuoteRoundTrip(tokens: seq<string>)
    ensures Tokens(Join(QuoteAll(tokens))) == NonEmpty(tokens)
  {
    RunQuoted([], tokens);
    assert [] + NonEmpty(tokens) == NonEmpty(tokens);
  }

  lemma {:induction false} NonEmptyIdentity(tokens: seq<string>)
    ensures |NonEmpty(tokens)| <= |tokens|
    ensures NonEmpty(tokens) == tokens <==> [] !in tokens
  {
    if tokens != [] {
      NonEmptyIdentity(tokens[1..]);
      assert tokens == [tokens[0]] + tokens[1..];
      if tokens[0] != [] && NonEmpty(tokens) == tokens {
        assert NonEmpty(tokens[1..]) == NonEmpty(tokens)[1..] == tokens[1..];
      }
    }
  }

  lemma QuoteRoundTripExactly(tokens: seq<string>)
    ensures Tokens(Join(QuoteAll(tokens))) == tokens <==> [] !in tokens
  {
    QuoteRoundTrip(tokens);
    NonEmptyIdentity(tokens);
  }

  // ---------------------------------------------------------------------------
  // Tokenising joined words again
  // ---------------------------------------------------------------------------

  predicate IsSpecial(c: char) {
    IsMark(c) || IsSeparator(c)
  }

  predicate Clean(t: string) {
    forall i :: 0 <= i < |t| ==> !IsSpecial(t[i])
  }

  predicate AllClean(tokens: seq<string>) {
    forall i :: 0 <= i < |tokens| ==> tokens[i] != [] && Clean(tokens[i])
  }

  lemma {:induction false} RunClean(tokens: seq<string>, current: string, t: string)
    requires Clean(t)
    ensures Run(Plain(tokens, current), t) == Plain(tokens, current + t)
    decreases |t|
  {
    if t == [] {
      assert current + t == current;
    } else {
      assert !IsSpecial(t[0]);
      RunClean(tokens, current + [t[0]], t[1..]);
      assert current + [t[0]] + t[1..] == current + t;
    }
  }

  lemma {:induction false} CleanWords(before: seq<string>, tokens: seq<string>)
    requires AllClean(tokens)
    ensures var s := Run(Plain(before, []), Join(tokens));
            Flush(s.tokens, s.current) == before + tokens
    decreases |tokens|
  {
    if tokens == [] {
      assert before + [] == before;
    } else {
      RunClean(before, [], tokens[0]);
      assert [] + tokens[0] == tokens[0];
      if |tokens| > 1 {
        var space := " ";
        assert Join(tokens) == tokens[0] + (space + Join(tokens[1..]));
        RunConcat(Plain(before, []), tokens[0], space + Join(tokens[1..]));
        RunConcat(Plain(before, tokens[0]), space, Join(tokens[1..]));
        assert Run(Plain(before, tokens[0]), space) == Plain(before + [tokens[0]], []) by {
          assert space[1..] == [];
        }
        CleanWords(before + [tokens[0]], tokens[1..]);
        assert before + [tokens[0]] + tokens[1..] == before + tokens;
      }
    }
  }

  /** Characters and word ends that a state accounts for: no step adds more than one, and a mark adds
      nothing, so joined words that come back unchanged held no mark and no separator of their own. */
  function Weight(tokens: seq<string>): nat {
    if tokens == [] then 0 else Weight(tokens[..|tokens| - 1]) + |tokens[|tokens| - 1]| + 1
  }

  function StateWeight(s: State): nat {
    Weight(s.tokens) + |s.current|
  }

  function Separators(line: string): nat {
    if line == [] then 0 else (if IsSeparator(line[0]) then 1 else 0) + Separators(line[1..])
  }

  lemma FlushWeight(tokens: seq<string>, current: string)
    ensures Weight(Flush(tokens, current)) == Weight(tokens) + |current| + if current == [] then 0 else 1
    ensures |Flush(tokens, current)| == |tokens| + if current == [] then 0 else 1
  {
    if current != [] {
      assert Flush(tokens, current)[..|tokens|] == tokens;
    }
  }

  lemma StepWeight(s: State, c: char)
    ensures StateWeight(Step(s, c)) <= StateWeight(s) + 1
    ensures StateWeight(Step(s, c)) == StateWeight(s) + 1 && s == Plain(s.tokens, s.current) ==>
              && !IsMark(c) && Step(s, c) == Plain(Step(s, c).tokens, Step(s, c).current)
              && |Step(s, c).tokens| == |s.tokens| + if IsSeparator(c) then 1 else 0
  {
    FlushWeight(s.tokens, s.current);
  }

  lemma {:induction false} RunWeight(s: State, line: string)
    ensures StateWeight(Run(s, line)) <= StateWeight(s) + |line|
    ensures StateWeight(Run(s, line)) == StateWeight(s) + |line| && s == Plain(s.tokens, s.current) ==>
              && (forall i :: 0 <= i < |line| ==> !IsMark(line[i]))
              && |Run(s, line).tokens| == |s.tokens| + Separators(line)
    decreases |line|
  {
    if line != [] {
      StepWeight(s, line[0]);
      RunWeight(Step(s, line[0]), line[1..]);
    }
  }

  lemma {:induction false} SeparatorsConcat(a: string, b: string)
    ensures Separators(a + b) == Separators(a) + Separators(b)
    decreases |a|
  {
    if a == [] {
      assert a + b == b;
    } else {
      assert (a + b)[1..] == a[1..] + b;
      SeparatorsConcat(a[1..], b);
    }
  }

  lemma {:induction false} WeightHead(tokens: seq<string>)
    requires tokens != []
    ensures Weight(tokens) == |tokens[0]| + 1 + Weight(tokens[1..])
    decreases |tokens|
  {
    if |tokens| > 1 {
      assert tokens[..|tokens| - 1][1..] == tokens[1..][..|tokens| - 2];
      WeightHead(tokens[..|tokens| - 1]);
    }
  }

  lemma {:induction false} JoinSize(tokens: seq<string>)
    requires tokens != []
    ensures |Join(tokens)| + 1 == Weight(tokens)
    ensures Separators(Join(tokens)) >= |tokens| - 1
    ensures forall i :: 0 <= i < |tokens| ==> Separators(Join(tokens)) >= |tokens| - 1 + Separators(tokens[i])
    ensures forall i, j :: 0 <= i < |tokens| && 0 <= j < |tokens[i]| ==> tokens[i][j] in Join(tokens)
    decreases |tokens|
  {
    WeightHead(tokens);
    if |tokens| > 1 {
      JoinSize(tokens[1..]);
      var space := " ";
      SeparatorsConcat(tokens[0] + space, Join(tokens[1..]));
      SeparatorsConcat(tokens[0], space);
      assert Separators(space) == 1 by {
        assert space[1..] == [];
      }
      assert forall i :: 1 <= i < |tokens| ==> tokens[i] == tokens[1..][i - 1];
    }
  }

  lemma {:induction false} NoSeparators(t: string)
    requires Separators(t) == 0
    ensures forall i :: 0 <= i < |t| ==> !IsSeparator(t[i])
    decreases |t|
  {
    if t != [] {
      NoSeparators(t[1..]);
      assert forall i :: 1 <= i < |t| ==> t[i] == t[1..][i - 1];
    }
  }

  lemma RunEmits(line: string)
    ensures [] !in Tokens(line)
    ensures Weight(Tokens(line)) <= |line| + 1
    ensures Weight(Tokens(line)) == |line| + 1 ==>
              && (forall i :: 0 <= i < |line| ==> !IsMark(line[i]))
              && |Tokens(line)| == Separators(line) + 1
  {
    var s := Run(START, line);
    RunWeight(START, line);
    FlushWeight(s.tokens, s.current);
    NeverEmpty(START, line);
  }

  lemma {:induction false} NeverEmpty(s: State, line: string)
    requires [] !in s.tokens
    ensures [] !in Run(s, line).tokens
    decreases |line|
  {
    if line != [] {
      NeverEmpty(Step(s, line[0]), line[1..]);
    }
  }

  /** Words joined by spaces come back unchanged exactly when each is non-empty and free of quotes,
      backslashes, comment signs, equals signs and whitespace. */
  lemma JoinRoundTripExactly(tokens: seq<string>)
    ensures Tokens(Join(tokens)) == tokens <==> AllClean(tokens)
  {
    if AllClean(tokens) {
      CleanWords([], tokens);
      assert [] + tokens == tokens;
    }
    if Tokens(Join(tokens)) == tokens && tokens != [] {
      RunEmits(Join(tokens));
      JoinSize(tokens);
      forall i | 0 <= i < |tokens| ensures tokens[i] != [] && Clean(tokens[i]) {
        assert tokens[i] in tokens;
        NoSeparators(tokens[i]);
      }
    }
  }

  /** Quoting the words of any line gives a line with the same words. */
  lemma Normalise(line: string)
    ensures Tokens(Join(QuoteAll(Tokens(line)))) == Tokens(line)
  {
    RunEmits(line);
    QuoteRoundTripExactly(Tokens(line));
  }

  // ---------------------------------------------------------------------------
  // Comments, separators and quotes
  // ---------------------------------------------------------------------------

  lemma StartIsPlain()
    ensures START == Plain([], [])
  {
  }

  lemma StepTo(s: State, c: char, rest: string)
    ensures Run(s, [c] + rest) == Run(Step(s, c), rest)
  {
    assert ([c] + rest)[1..] == rest;
  }

  /** A comment sign after clean words ends the line, also in the middle of a word. */
  lemma CommentEnds(words: seq<string>, comment: string)
    requires AllClean(words)
    ensures Tokens(Join(words) + (['#'] + comment)) == words
  {
    CleanWords([], words);
    assert [] + words == words;
    StaysPlain([], words);
    var s := Run(START, Join(words));
    RunConcat(START, Join(words), ['#'] + comment);
    StepTo(s, '#', comment);
    RunDone(Step(s, '#'), comment);
  }

  lemma {:induction false} StaysPlain(before: seq<string>, words: seq<string>)
    requires AllClean(words)
    ensures var s := Run(Plain(before, []), Join(words)); s == Plain(s.tokens, s.current)
    decreases |words|
  {
    if words != [] {
      RunClean(before, [], words[0]);
      assert [] + words[0] == words[0];
      if |words| > 1 {
        assert Join(words) == words[0] + (" " + Join(words[1..]));
        RunConcat(Plain(before, []), words[0], " " + Join(words[1..]));
        RunSpace(before, words[0], Join(words[1..]));
        StaysPlain(Flush(before, words[0]), words[1..]);
      }
    }
  }

  /** Any whitespace and the equals sign stand between words. */
  lemma SeparatorSplits(a: string, c: char, b: string)
    requires a != [] && Clean(a) && b != [] && Clean(b) && (c == '=' || IsWhitespace(c))
    ensures Tokens(a + ([c] + b)) == [a, b]
  {
    StartIsPlain();
    RunConcat(START, a, [c] + b);
    RunClean([], [], a);
    assert [] + a == a && [] + b == b;
    StepTo(Plain([], a), c, b);
    assert Step(Plain([], a), c) == Plain([a], []);
    RunClean([a], [], b);
  }

  lemma {:induction false} RunSingle(tokens: seq<string>, current: string, t: string)
    requires forall i :: 0 <= i < |t| ==> t[i] != '\'' && t[i] != '\\'
    ensures Run(State(tokens, current, Some('\''), false, false), t) == State(tokens, current + t, Some('\''), false, false)
    decreases |t|
  {
    if t == [] {
      assert current + t == current;
    } else {
      RunSingle(tokens, current + [t[0]], t[1..]);
      assert current + [t[0]] + t[1..] == current + t;
    }
  }

  /** Between single quotes everything stands for itself but the quote and the backslash. */
  lemma SingleQuoted(t: string)
    requires t != [] && forall i :: 0 <= i < |t| ==> t[i] != '\'' && t[i] != '\\'
    ensures Tokens(['\''] + (t + ['\''])) == [t]
  {
    var open := State([], [], Some('\''), false, false);
    StepTo(START, '\'', t + ['\'']);
    assert Step(START, '\'') == open;
    RunConcat(open, t, ['\'']);
    RunSingle([], [], t);
    assert [] + t == t;
    StepTo(State([], t, Some('\''), false, false), '\'', []);
    assert ['\''] + [] == ['\''];
  }

  /** A backslash makes the character after it stand for itself, and alone at the end it is nothing. */
  lemma BackslashEscapes(c: char)
    ensures Tokens(['\\', c]) == [[c]] && Tokens(['\\']) == []
  {
    var escaped := State([], [], None, true, false);
    StepTo(START, '\\', [c]);
    StepTo(START, '\\', []);
    StepTo(escaped, c, []);
    assert Step(START, '\\') == escaped && Step(escaped, c) == Plain([], [c]);
    assert ['\\'] + [c] == ['\\', c] && ['\\'] + [] == ['\\'] && [c] + [] == [c];
  }

  /** It does so between quotes of either kind, too. */
  lemma BackslashInQuotes(q: char, c: char)
    requires q == '\'' || q == '"'
    ensures Tokens([q, '\\', c, q]) == [[c]]
  {
    var open, escaped := State([], [], Some(q), false, false), State([], [], Some(q), true, false);
    StepTo(START, q, ['\\', c, q]);
    StepTo(open, '\\', [c, q]);
    StepTo(escaped, c, [q]);
    StepTo(State([], [c], Some(q), false, false), q, []);
    assert [q] + ['\\', c, q] == [q, '\\', c, q] && ['\\'] + [c, q] == ['\\', c, q] && [c] + [q] == [c, q];
    assert [q] + [] == [q];
    assert Step(START, q) == open && Step(open, '\\') == escaped;
    assert Step(escaped, c) == State([], [c], Some(q), false, false);
    assert Step(State([], [c], Some(q), false, false), q) == Plain([], [c]);
    assert Run(Plain([], [c]), []) == Plain([], [c]);
  }
}
