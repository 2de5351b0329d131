/** `Host` patterns of ssh_config: the backtracking matcher against what a pattern means, and lists of
    patterns with negation. */
module HostPatterns {
  import opened Wrappers
  import Utf8

  const STAR: Byte := 0x2A
  const QUESTION: Byte := 0x3F

  function LowerByte(b: Byte): Byte {
    if 0x41 <= b <= 0x5A then b + 32 else b
  }

  /** The matcher, on the bytes of pattern and value. */
  predicate WildcardMatch(pattern: Bytes, value: Bytes)
    decreases |pattern| + |value|
  {
    if pattern == [] then value == []
    else if pattern[0] == STAR then
      WildcardMatch(pattern[1..], value) || (value != [] && WildcardMatch(pattern, value[1..]))
    else if pattern[0] == QUESTION then value != [] && WildcardMatch(pattern[1..], value[1..])
    else value != [] && LowerByte(pattern[0]) == LowerByte(value[0]) && WildcardMatch(pattern[1..], value[1..])
  }

  // ---------------------------------------------------------------------------
  // Meaning
  // ---------------------------------------------------------------------------

  /** What one pattern byte stands for. */
  predicate Covers(p: Byte, piece: Bytes) {
    p == STAR || (|piece| == 1 && (p == QUESTION || LowerByte(p) == LowerByte(piece[0])))
  }

  function Flatten(pieces: seq<Bytes>): Bytes {
    if pieces == [] then [] else pieces[0] + Flatten(pieces[1..])
  }

  /** The value cut into one piece for each pattern byte. */
  ghost predicate Cut(pattern: Bytes, value: Bytes, pieces: seq<Bytes>) {
    && |pieces| == |pattern| && Flatten(pieces) == value
    && forall i :: 0 <= i < |pattern| ==> Covers(pattern[i], pieces[i])
  }

  lemma {:induction false} Complete(pattern: Bytes, value: Bytes, pieces: seq<Bytes>)
    requires Cut(pattern, value, pieces)
    ensures WildcardMatch(pattern, value)
    decreases |pattern| + |value|
  {
    if pattern != [] {
      assert Cut(pattern[1..], Flatten(pieces[1..]), pieces[1..]);
      if pattern[0] == STAR && pieces[0] != [] {
        var shorter := pieces[0 := pieces[0][1..]];
        assert value[1..] == pieces[0][1..] + Flatten(pieces[1..]);
        assert shorter[1..] == pieces[1..];
        Complete(pattern, value[1..], shorter);
      } else if pattern[0] == STAR {
        assert value == Flatten(pieces[1..]);
        Complete(pattern[1..], value, pieces[1..]);
      } else {
        assert value[1..] == Flatten(pieces[1..]);
        Complete(pattern[1..], value[1..], pieces[1..]);
      }
    }
  }

  lemma CutMore(p: Byte, piece: Bytes, pattern: Bytes, value: Bytes, pieces: seq<Bytes>)
    requires Covers(p, piece) && Cut(pattern, value, pieces)
    ensures Cut([p] + pattern, piece + value, [piece] + pieces)
  {
    assert ([piece] + pieces)[1..] == pieces;
  }

  lemma {:induction false} Sound(pattern: Bytes, value: Bytes) returns (pieces: seq<Bytes>)
    requires WildcardMatch(pattern, value)
    ensures Cut(pattern, value, pieces)
    decreases |pattern| + |value|
  {
    if pattern == [] {
      pieces := [];
    } else {
      assert pattern == [pattern[0]] + pattern[1..];
      if pattern[0] == STAR && WildcardMatch(pattern[1..], value) {
        var rest := Sound(pattern[1..], value);
        CutMore(pattern[0], [], pattern[1..], value, rest);
        assert [] + value == value;
        pieces := [[]] + rest;
      } else if pattern[0] == STAR {
        var rest := Sound(pattern, value[1..]);
        assert value == [value[0]] + rest[0] + Flatten(rest[1..]);
        pieces := rest[0 := [value[0]] + rest[0]];
        assert pieces[1..] == rest[1..];
      } else {
        var rest := Sound(pattern[1..], value[1..]);
        CutMore(pattern[0], [value[0]], pattern[1..], value[1..], rest);
        assert [value[0]] + value[1..] == value;
        pieces := [[value[0]]] + rest;
      }
    }
  }

  /** The matcher accepts exactly the values that can be cut to fit the pattern. */
  lemma MatchMeaning(pattern: Bytes, value: Bytes)
    ensures WildcardMatch(pattern, value) <==> exists pieces :: Cut(pattern, value, pieces)
  {
    if WildcardMatch(pattern, value) {
      var pieces := Sound(pattern, value);
    }
    forall pieces | Cut(pattern, value, pieces) ensures WildcardMatch(pattern, value) {
      Complete(pattern, value, pieces);
    }
  }

  // ---------------------------------------------------------------------------
  // Laws
  // ---------------------------------------------------------------------------

  lemma {:induction false} FlattenConcat(a: seq<Bytes>, b: seq<Bytes>)
    ensures Flatten(a + b) == Flatten(a) + Flatten(b)
  {
    if a == [] {
      assert a + b == b;
    } else {
      FlattenConcat(a[1..], b);
      assert (a + b)[0] == a[0] && (a + b)[1..] == a[1..] + b;
      assert a[0] + (Flatten(a[1..]) + Flatten(b)) == a[0] + Flatten(a[1..]) + Flatten(b);
    }
  }

  ghost predicate SplitsAt(p: Bytes, q: Bytes, value: Bytes, i: nat) {
    i <= |value| && WildcardMatch(p, value[..i]) && WildcardMatch(q, value[i..])
  }

  /** Two patterns in a row match the values that split into a match of each. */
  lemma SplitLaw(p: Bytes, q: Bytes, value: Bytes)
    ensures WildcardMatch(p + q, value) <==> exists i: nat :: SplitsAt(p, q, value, i)
  {
    if WildcardMatch(p + q, value) {
      var pieces := Sound(p + q, value);
      var a, b := pieces[..|p|], pieces[|p|..];
      assert pieces == a + b;
      FlattenConcat(a, b);
      var i := |Flatten(a)|;
      assert value[..i] == Flatten(a) && value[i..] == Flatten(b);
      assert Cut(p, value[..i], a) by {
        assert forall k :: 0 <= k < |p| ==> (p + q)[k] == p[k];
      }
      assert Cut(q, value[i..], b) by {
        assert forall k :: 0 <= k < |q| ==> (p + q)[|p| + k] == q[k];
      }
      Complete(p, value[..i], a);
      Complete(q, value[i..], b);
      assert SplitsAt(p, q, value, i);
    }
    forall i: nat | SplitsAt(p, q, value, i) ensures WildcardMatch(p + q, value) {
      var a := Sound(p, value[..i]);
      var b := Sound(q, value[i..]);
      FlattenConcat(a, b);
      assert value == value[..i] + value[i..];
      Complete(p + q, value, a + b);
    }
  }

  predicate Literal(pattern: Bytes) {
    forall i :: 0 <= i < |pattern| ==> pattern[i] != STAR && pattern[i] != QUESTION
  }

  /** The same byte, or the same ASCII letter in either case. */
  predicate SameLetter(a: Byte, b: Byte) {
    || a == b
    || ('A' as int <= a <= 'Z' as int && b == a as int - 'A' as int + 'a' as int)
    || ('A' as int <= b <= 'Z' as int && a == b as int - 'A' as int + 'a' as int)
  }

  lemma LowerByteExactly(a: Byte, b: Byte)
    ensures LowerByte(a) == LowerByte(b) <==> SameLetter(a, b)
  {
  }

  /** A pattern without wildcards matches just the spellings of itself that differ in ASCII case. */
  lemma {:induction false} LiteralMatch(pattern: Bytes, value: Bytes)
    requires Literal(pattern)
    ensures WildcardMatch(pattern, value) <==>
            |pattern| == |value| && forall i :: 0 <= i < |value| ==> SameLetter(pattern[i], value[i])
  {
    if pattern != [] && value != [] {
      LowerByteExactly(pattern[0], value[0]);
      LiteralMatch(pattern[1..], value[1..]);
      assert (forall i :: 0 <= i < |value| && |pattern| == |value| ==> SameLetter(pattern[i], value[i])) ==>
             forall i :: 0 <= i < |value| - 1 && |pattern| == |value| ==>
               SameLetter(pattern[1..][i], value[1..][i]);
    }
  }

  /** The star matches everything, the question mark any one byte. */
  lemma Wildcards(value: Bytes)
    ensures WildcardMatch(['*' as int], value)
    ensures WildcardMatch(['?' as int], value) <==> |value| == 1
  {
    StarMatchesAll(value);
    assert [QUESTION][1..] == [];
    assert WildcardMatch([QUESTION], value) <==> value != [] && WildcardMatch([], value[1..]);
  }

  lemma StarMatchesAll(value: Bytes)
    ensures WildcardMatch([STAR], value)
  {
    var pieces: seq<Bytes> := [value];
    assert Flatten(pieces) == value + [] == value;
    Complete([STAR], value, pieces);
  }

  lemma LiteralLength(p: Bytes, value: Bytes)
    requires Literal(p) && WildcardMatch(p, value)
    ensures |p| == |value|
  {
    LiteralMatch(p, value);
  }

  /** A literal prefix and a star match the values that start with the prefix. */
  lemma PrefixMatch(p: Bytes, value: Bytes)
    requires Literal(p)
    ensures WildcardMatch(p + [STAR], value) <==> |p| <= |value| && WildcardMatch(p, value[..|p|])
  {
    SplitLaw(p, [STAR], value);
    if WildcardMatch(p + [STAR], value) {
      var j: nat :| SplitsAt(p, [STAR], value, j);
      LiteralLength(p, value[..j]);
    }
    if |p| <= |value| && WildcardMatch(p, value[..|p|]) {
      StarMatchesAll(value[|p|..]);
      assert SplitsAt(p, [STAR], value, |p|);
    }
  }

  // ---------------------------------------------------------------------------
  // Lists of patterns
  // ---------------------------------------------------------------------------

  predicate Matches(pattern: string, host: string) {
    WildcardMatch(Utf8.Encode(pattern), Utf8.Encode(host))
  }

  predicate Negated(pattern: string) {
    pattern != [] && pattern[0] == '!'
  }

  /** Some positive pattern and no negated one. */
  predicate Selects(patterns: seq<string>, host: string) {
    && (exists p <- patterns :: !Negated(p) && Matches(p, host))
    && (forall p <- patterns :: Negated(p) ==> !Matches(p[1..], host))
  }

  method HostPatternsMatch(patterns: seq<string>, host: string) returns (r: bool)
    ensures r == Selects(patterns, host)
  {
    var matched := false;
    for i := 0 to |patterns|
      invariant matched <==> exists j :: 0 <= j < i && !Negated(patterns[j]) && Matches(patterns[j], host)
      invariant forall j :: 0 <= j < i && Negated(patterns[j]) ==> !Matches(patterns[j][1..], host)
    {
      var pattern := patterns[i];
      if pattern != [] && pattern[0] == '!' {
        if WildcardMatch(Utf8.Encode(pattern[1..]), Utf8.Encode(host)) {
          assert pattern in patterns;
          return false;
        }
      } else if WildcardMatch(Utf8.Encode(pattern), Utf8.Encode(host)) {
        matched := true;
      }
    }
    return matched;
  }

  /** Neither order nor repetition of the patterns matters. */
  lemma OrderIndependent(ps: seq<string>, qs: seq<string>, host: string)
    requires forall p :: p in ps <==> p in qs
    ensures Selects(ps, host) == Selects(qs, host)
  {
    if Selects(ps, host) {
      var p :| p in ps && !Negated(p) && Matches(p, host);
      assert p in qs;
    }
    if Selects(qs, host) {
      var q :| q in qs && !Negated(q) && Matches(q, host);
      assert q in ps;
    }
  }

  /** An exclamation mark before a pattern excludes what the pattern matches, whatever else is listed; a
      list of exclusions alone selects nothing. */
  lemma NegationWins(patterns: seq<string>, p: string, host: string)
    ensures ['!'] + p in patterns && Matches(p, host) ==> !Selects(patterns, host)
    ensures (forall q <- patterns :: q != [] && q[0] == '!') ==> !Selects(patterns, host)
    ensures (p == [] || p[0] != '!') ==> (Selects([p], host) <==> Matches(p, host))
  {
    assert (['!'] + p)[1..] == p;
    assert p in [p];
  }
}
