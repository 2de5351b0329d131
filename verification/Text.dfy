/** The string operations of Rust's standard library that the parsers rely on. */
module Text {
  import opened Wrappers

  predicate IsDigit(c: char) {
    '0' <= c <= '9'
  }

  /** The Unicode `White_Space` property. */
  predicate IsWhitespace(c: char) {
    var n := c as int;
    9 <= n <= 13 || n in {0x20, 0x85, 0xA0, 0x1680, 0x2028, 0x2029, 0x202F, 0x205F, 0x3000} || 0x2000 <= n <= 0x200A
  }

  function LowerChar(c: char): char {
    if 'A' <= c <= 'Z' then (c as int + 32) as char else c
  }

  /** `to_ascii_lowercase`. */
  function Lower(s: string): (r: string)
    ensures |r| == |s|
  {
    if s == [] then [] else [LowerChar(s[0])] + Lower(s[1..])
  }

  /** The same ASCII letter in either case, or the same character. */
  predicate SameLetter(c: char, d: char) {
    || c == d
    || ('A' <= c <= 'Z' && d as int - 'a' as int == c as int - 'A' as int)
    || ('a' <= c <= 'z' && d as int - 'A' as int == c as int - 'a' as int)
  }

  /** Equal up to ASCII case. */
  predicate SameSpelling(a: string, b: string) {
    |a| == |b| && forall i :: 0 <= i < |a| ==> SameLetter(a[i], b[i])
  }

  /** Lower case makes exactly the spellings equal that differ in ASCII case only. */
  lemma {:induction false} LowerExactly(a: string, b: string)
    ensures Lower(a) == Lower(b) <==> SameSpelling(a, b)
    decreases |a|
  {
    if a != [] && b != [] {
      LowerExactly(a[1..], b[1..]);
      assert Lower(a)[0] == LowerChar(a[0]) && Lower(a)[1..] == Lower(a[1..]);
      assert Lower(b)[0] == LowerChar(b[0]) && Lower(b)[1..] == Lower(b[1..]);
      assert Lower(a) == [Lower(a)[0]] + Lower(a)[1..] && Lower(b) == [Lower(b)[0]] + Lower(b)[1..];
      if SameSpelling(a, b) {
        assert SameSpelling(a[1..], b[1..]);
        assert SameLetter(a[0], b[0]);
      }
      if SameSpelling(a[1..], b[1..]) && SameLetter(a[0], b[0]) {
        assert forall i :: 1 <= i < |a| ==> a[i] == a[1..][i - 1] && b[i] == b[1..][i - 1];
      }
    }
  }

  lemma {:induction false} LowerUnchanged(s: string)
    requires forall i :: 0 <= i < |s| ==> !('A' <= s[i] <= 'Z')
    ensures Lower(s) == s
    decreases |s|
  {
    if s != [] {
      LowerUnchanged(s[1..]);
    }
  }

  /** The characters with the `White_Space` property, one by one. */
  lemma WhitespaceExactly(c: char)
    ensures IsWhitespace(c) <==>
              c in ['\U{9}', '\U{A}', '\U{B}', '\U{C}', '\U{D}', ' ', '\U{85}', '\U{A0}', '\U{1680}',
                    '\U{2000}', '\U{2001}', '\U{2002}', '\U{2003}', '\U{2004}', '\U{2005}', '\U{2006}',
                    '\U{2007}', '\U{2008}', '\U{2009}', '\U{200A}', '\U{2028}', '\U{2029}', '\U{202F}',
                    '\U{205F}', '\U{3000}']
  {
    var n := c as int;
    assert c == n as char;
  }

  predicate AllWhitespace(s: string) {
    forall i :: 0 <= i < |s| ==> IsWhitespace(s[i])
  }

  function TrimStart(s: string): (r: string)
    ensures |r| <= |s|
  {
    if s != [] && IsWhitespace(s[0]) then TrimStart(s[1..]) else s
  }

  function TrimEnd(s: string): (r: string)
    ensures |r| <= |s|
  {
    if s != [] && IsWhitespace(s[|s| - 1]) then TrimEnd(s[..|s| - 1]) else s
  }

  function Trim(s: string): string {
    TrimStart(TrimEnd(s))
  }

  lemma {:induction false} TrimStartEnds(s: string)
    ensures TrimStart(s) == s[|s| - |TrimStart(s)|..]
    ensures TrimStart(s) != [] ==> !IsWhitespace(TrimStart(s)[0]) && TrimStart(s)[|TrimStart(s)| - 1] == s[|s| - 1]
    decreases |s|
  {
    if s != [] && IsWhitespace(s[0]) {
      TrimStartEnds(s[1..]);
    }
  }

  lemma {:induction false} TrimEndEnds(s: string)
    ensures TrimEnd(s) == s[..|TrimEnd(s)|]
    ensures TrimEnd(s) != [] ==> !IsWhitespace(TrimEnd(s)[|TrimEnd(s)| - 1])
    decreases |s|
  {
    if s != [] && IsWhitespace(s[|s| - 1]) {
      TrimEndEnds(s[..|s| - 1]);
    }
  }

  /** Trimmed text is a part of the whole and has no whitespace at either end. */
  lemma TrimEnds(s: string)
    ensures forall c <- Trim(s) :: c in s
    ensures Trim(s) != [] ==> !IsWhitespace(Trim(s)[0]) && !IsWhitespace(Trim(s)[|Trim(s)| - 1])
  {
    TrimEndEnds(s);
    TrimStartEnds(TrimEnd(s));
  }

  lemma {:induction false} TrimStartCuts(s: string) returns (a: string)
    ensures s == a + TrimStart(s) && AllWhitespace(a)
    decreases |s|
  {
    a := [];
    if s != [] && IsWhitespace(s[0]) {
      var rest := TrimStartCuts(s[1..]);
      a := [s[0]] + rest;
    }
  }

  lemma {:induction false} TrimEndCuts(s: string) returns (b: string)
    ensures s == TrimEnd(s) + b && AllWhitespace(b)
    decreases |s|
  {
    b := [];
    if s != [] && IsWhitespace(s[|s| - 1]) {
      var rest := TrimEndCuts(s[..|s| - 1]);
      b := rest + [s[|s| - 1]];
      assert s == s[..|s| - 1] + [s[|s| - 1]];
    }
  }

  /** Trimming takes whitespace off both ends, and all that is there. */
  lemma TrimCuts(s: string) returns (a: string, b: string)
    ensures s == a + Trim(s) + b && AllWhitespace(a) && AllWhitespace(b)
    ensures Trim(s) != [] ==> !IsWhitespace(Trim(s)[0]) && !IsWhitespace(Trim(s)[|Trim(s)| - 1])
  {
    TrimEnds(s);
    b := TrimEndCuts(s);
    a := TrimStartCuts(TrimEnd(s));
  }

  lemma TrimUnchanged(s: string)
    requires s != [] ==> !IsWhitespace(s[0]) && !IsWhitespace(s[|s| - 1])
    ensures Trim(s) == s
  {
  }

  /** `join(" ")`. */
  function Join(words: seq<string>): string {
    if words == [] then []
    else if |words| == 1 then words[0]
    else words[0] + " " + Join(words[1..])
  }

  /** Words with one space between each and the next. */
  lemma {:induction false} JoinSpaces(words: seq<string>, more: seq<string>)
    requires words != [] && more != []
    ensures Join(words + more) == Join(words) + [' '] + Join(more)
    decreases |words|
  {
    if |words| == 1 {
      assert (words + more)[1..] == more && (words + more)[0] == words[0];
    } else {
      assert (words + more)[1..] == words[1..] + more;
      JoinSpaces(words[1..], more);
    }
  }

  /** Index of the first `c`, if any. */
  function Find(s: string, c: char): (r: Option<nat>)
    ensures r.Some? ==> r.value < |s| && s[r.value] == c && c !in s[..r.value]
    ensures r.None? ==> c !in s
  {
    if s == [] then None
    else if s[0] == c then Some(0)
    else
      match Find(s[1..], c)
      case None => None
      case Some(i) =>
        assert s[..i + 1] == [s[0]] + s[1..][..i];
        Some(i + 1)
  }

  /** Index of the last `c`, if any. */
  function FindLast(s: string, c: char): (r: Option<nat>)
    ensures r.Some? ==> r.value < |s| && s[r.value] == c && c !in s[r.value + 1..]
    ensures r.None? ==> c !in s
  {
    if s == [] then None
    else if s[|s| - 1] == c then Some(|s| - 1)
    else
      var init := s[..|s| - 1];
      assert s == init + [s[|s| - 1]];
      match FindLast(init, c)
      case None => None
      case Some(i) =>
        assert s[i + 1..] == init[i + 1..] + [s[|s| - 1]];
        Some(i)
  }

  lemma {:induction false} FindLastUnique(s: string, c: char, i: nat)
    requires i < |s| && s[i] == c && c !in s[i + 1..]
    ensures FindLast(s, c) == Some(i)
  {
    if i < |s| - 1 {
      var init := s[..|s| - 1];
      assert s[i + 1..] == init[i + 1..] + [s[|s| - 1]];
      FindLastUnique(init, c, i);
    }
  }

  lemma {:induction false} FindAfter(a: string, rest: string, c: char)
    requires c !in a
    ensures Find(a + [c] + rest, c) == Some(|a|)
    decreases |a|
  {
    if a != [] {
      assert (a + [c] + rest)[1..] == a[1..] + [c] + rest;
      FindAfter(a[1..], rest, c);
    }
  }

  /** `split(c)`: always at least one part. */
  function Split(s: string, c: char): (parts: seq<string>)
    ensures parts != []
    decreases |s|
  {
    match Find(s, c)
    case None => [s]
    case Some(i) => [s[..i]] + Split(s[i + 1..], c)
  }

  /** Parts put together again. */
  function Glue(parts: seq<string>, c: char): string
    requires parts != []
  {
    if |parts| == 1 then parts[0] else parts[0] + [c] + Glue(parts[1..], c)
  }

  lemma GlueHas(parts: seq<string>, c: char)
    requires parts != []
    ensures |parts| > 1 ==> c in Glue(parts, c)
  {
    assert |parts| > 1 ==> Glue(parts, c)[|parts[0]|] == c;
  }

  lemma FindUnique(s: string, c: char, i: nat)
    requires i < |s| && s[i] == c && c !in s[..i]
    ensures Find(s, c) == Some(i)
  {
    FindAfter(s[..i], s[i + 1..], c);
    assert s == s[..i] + [c] + s[i + 1..];
  }

  lemma SplitGlues(s: string, c: char, parts: seq<string>)
    requires c in s && parts != []
    ensures var i := Find(s, c).value;
            |parts| > 1 && parts[0] == s[..i] && Glue(parts[1..], c) == s[i + 1..] ==> Glue(parts, c) == s
    ensures Glue(parts, c) == s && |parts| > 1 && c !in parts[0] ==>
              var i := Find(s, c).value; parts[0] == s[..i] && Glue(parts[1..], c) == s[i + 1..]
  {
    var i := Find(s, c).value;
    assert s == s[..i] + [c] + s[i + 1..];
    if Glue(parts, c) == s && |parts| > 1 && c !in parts[0] {
      assert s[..|parts[0]|] == parts[0] && s[|parts[0]|] == c;
      FindUnique(s, c, |parts[0]|);
    }
  }

  lemma NoneInParts(parts: seq<string>, c: char)
    requires parts != []
    ensures (forall p <- parts :: c !in p) <==> c !in parts[0] && forall p <- parts[1..] :: c !in p
  {
    assert parts == [parts[0]] + parts[1..];
  }

  /** The parts are the only ones without the separator that give the text when put together. */
  lemma {:induction false} SplitExactly(s: string, c: char, parts: seq<string>)
    requires parts != []
    ensures Split(s, c) == parts <==> Glue(parts, c) == s && forall p <- parts :: c !in p
    decreases |s|
  {
    NoneInParts(parts, c);
    match Find(s, c)
    case None =>
      GlueHas(parts, c);
      assert |parts| == 1 ==> parts == [parts[0]];
    case Some(i) =>
      SplitGlues(s, c, parts);
      assert parts == [parts[0]] + parts[1..];
      if |parts| > 1 {
        SplitExactly(s[i + 1..], c, parts[1..]);
      }
  }

  /** `lines()`: a carriage return before the newline belongs to the line's end, and nothing follows
      the last newline. */
  function Lines(s: string): (lines: seq<string>)
    ensures forall i :: 0 <= i < |lines| ==> '\n' !in lines[i]
    decreases |s|
  {
    if s == [] then []
    else
      match Find(s, '\n')
      case None => [s]
      case Some(i) => [StripReturn(s[..i])] + Lines(s[i + 1..])
  }

  function StripReturn(s: string): (r: string)
    ensures r <= s
  {
    if s != [] && s[|s| - 1] == '\r' then s[..|s| - 1] else s
  }

  lemma LinesStep(line: string, rest: string)
    requires '\n' !in line
    ensures Lines(line + ['\n'] + rest) == [StripReturn(line)] + Lines(rest)
  {
    var s := line + ['\n'] + rest;
    FindAfter(line, rest, '\n');
    assert s[..|line|] == line && s[|line| + 1..] == rest;
  }

  lemma ReturnBefore(line: string, rest: string)
    ensures line + ['\r', '\n'] + rest == (line + ['\r']) + ['\n'] + rest
    ensures StripReturn(line + ['\r']) == line
  {
    assert line + ['\r', '\n'] == (line + ['\r']) + ['\n'];
    assert (line + ['\r'])[..|line|] == line;
  }

  /** A newline ends a line, with or without a carriage return before it, and so does the end of the text. */
  lemma LineEnds(line: string, rest: string)
    requires '\n' !in line
    ensures Lines(line + ['\r', '\n'] + rest) == [line] + Lines(rest)
    ensures (line == [] || line[|line| - 1] != '\r') ==> Lines(line + ['\n'] + rest) == [line] + Lines(rest)
    ensures Lines(line) == if line == [] then [] else [line]
  {
    LinesStep(line, rest);
    LinesStep(line + ['\r'], rest);
    ReturnBefore(line, rest);
  }

  /** The length of the first run of characters that are not whitespace. */
  function WordEnd(s: string): (n: nat)
    ensures n <= |s| && (n < |s| ==> IsWhitespace(s[n])) && forall i :: 0 <= i < n ==> !IsWhitespace(s[i])
  {
    if s == [] || IsWhitespace(s[0]) then 0 else 1 + WordEnd(s[1..])
  }

  /** `split_whitespace`. */
  function Words(s: string): seq<string>
    decreases |s|
  {
    var t := TrimStart(s);
    if t == [] || IsWhitespace(t[0]) then [] else [t[..WordEnd(t)]] + Words(t[WordEnd(t)..])
  }

  predicate NoWhitespace(s: string) {
    forall i :: 0 <= i < |s| ==> !IsWhitespace(s[i])
  }

  lemma WordEndUnique(w: string, rest: string)
    requires NoWhitespace(w) && (rest == [] || IsWhitespace(rest[0]))
    ensures WordEnd(w + rest) == |w|
  {
    assert forall i :: 0 <= i < |w| ==> (w + rest)[i] == w[i];
    assert rest != [] ==> (w + rest)[|w|] == rest[0];
  }

  lemma WordsHead(w: string, rest: string)
    requires w != [] && NoWhitespace(w) && (rest == [] || IsWhitespace(rest[0]))
    ensures Words(w + rest) == [w] + Words(rest)
  {
    WordEndUnique(w, rest);
    assert TrimStart(w + rest) == w + rest;
    assert (w + rest)[..|w|] == w && (w + rest)[|w|..] == rest;
  }

  lemma WordsSpace(c: char, rest: string)
    requires IsWhitespace(c)
    ensures Words([c] + rest) == Words(rest)
  {
    assert ([c] + rest)[1..] == rest;
  }

  lemma {:induction false} TrimKeepsFirst(s: string)
    requires s != [] && !IsWhitespace(s[0])
    ensures Trim(s) != [] && Trim(s)[0] == s[0]
    decreases |s|
  {
    if IsWhitespace(s[|s| - 1]) {
      TrimKeepsFirst(s[..|s| - 1]);
      assert Trim(s) == Trim(s[..|s| - 1]);
    }
  }

  /** The value of a string of decimal digits. */
  function DigitsValue(s: string): nat
    requires forall c <- s :: IsDigit(c)
  {
    if s == [] then 0
    else
      assert s[|s| - 1] in s && IsDigit(s[|s| - 1]);
      10 * DigitsValue(s[..|s| - 1]) + (s[|s| - 1] as int - '0' as int)
  }

  /** `str::parse::<u16>`: at least one digit after an optional plus sign, and no overflow. Leading
      zeros are accepted. */
  function ParseU16(s: string): Option<U16> {
    var digits := if s != [] && s[0] == '+' then s[1..] else s;
    if digits == [] || exists c <- digits :: !IsDigit(c) then None
    else if DigitsValue(digits) < 0x1_0000 then Some(DigitsValue(digits))
    else None
  }

  /** Decimal rendering, as `{}` formats an unsigned integer. */
  function Decimal(n: nat): (s: string)
    ensures s != [] && forall c <- s :: IsDigit(c)
  {
    var last := [('0' as int + n % 10) as char];
    if n < 10 then last else Decimal(n / 10) + last
  }

  lemma {:induction false} DecimalValue(n: nat)
    ensures DigitsValue(Decimal(n)) == n
  {
    if n >= 10 {
      DecimalValue(n / 10);
      assert Decimal(n)[..|Decimal(n)| - 1] == Decimal(n / 10);
    }
  }

  lemma ParseDecimal(n: U16)
    ensures ParseU16(Decimal(n)) == Some(n)
  {
    DecimalValue(n);
    assert IsDigit(Decimal(n)[0]);
  }

  function Pow10(k: nat): nat {
    if k == 0 then 1 else 10 * Pow10(k - 1)
  }

  predicate Parts(n: nat, weight: nat, high: nat, d: nat, low: nat) {
    low < weight && n == weight * (10 * high + d) + low
  }

  /** The digit of `n` with weight ten to the `k`. */
  ghost predicate HasDigit(n: nat, k: nat, d: nat) {
    d < 10 && exists high: nat, low: nat :: Parts(n, Pow10(k), high, d, low)
  }

  lemma PartsNext(n: nat, weight: nat, high: nat, d: nat, low: nat)
    requires Parts(n / 10, weight, high, d, low)
    ensures Parts(n, 10 * weight, high, d, 10 * low + n % 10)
  {
    var m := 10 * high + d;
    assert n == 10 * (weight * m + low) + n % 10;
    assert 10 * (weight * m) == (10 * weight) * m;
  }

  lemma NextDigit(n: nat, k: nat, d: nat)
    requires HasDigit(n / 10, k, d)
    ensures HasDigit(n, k + 1, d)
  {
    var high: nat, low: nat :| Parts(n / 10, Pow10(k), high, d, low);
    PartsNext(n, Pow10(k), high, d, low);
    assert Pow10(k + 1) == 10 * Pow10(k);
  }

  /** The digit of weight ten to the `k` stands `k` places from the right, and there is no leading zero. */
  lemma {:induction false} DecimalDigits(n: nat, k: nat)
    requires k < |Decimal(n)|
    ensures var c := Decimal(n)[|Decimal(n)| - 1 - k]; '0' <= c <= '9' && HasDigit(n, k, c as int - '0' as int)
    ensures |Decimal(n)| > 1 ==> Decimal(n)[0] != '0'
    decreases n
  {
    if n >= 10 {
      DecimalDigits(n / 10, 0);
    }
    if k > 0 {
      DecimalDigits(n / 10, k - 1);
      var c := Decimal(n / 10)[|Decimal(n / 10)| - 1 - (k - 1)];
      NextDigit(n, k - 1, c as int - '0' as int);
    } else {
      assert Parts(n, Pow10(0), n / 10, n % 10, 0);
    }
  }

  /** A run of zeros. */
  predicate AllZeros(s: string) {
    forall i :: 0 <= i < |s| ==> s[i] == '0'
  }

  lemma {:induction false} ZerosCountNothing(zeros: string, s: string)
    requires AllZeros(zeros) && forall c <- s :: IsDigit(c)
    ensures forall c <- zeros + s :: IsDigit(c)
    ensures DigitsValue(zeros + s) == DigitsValue(s)
    decreases |s|
  {
    if s == [] {
      ZerosAreZero(zeros);
      assert zeros + s == zeros;
    } else {
      var init, last := s[..|s| - 1], s[|s| - 1];
      assert s == init + [last] && last in s;
      ZerosCountNothing(zeros, init);
      assert (zeros + s)[..|zeros + s| - 1] == zeros + init;
    }
  }

  lemma {:induction false} ZerosAreZero(zeros: string)
    requires AllZeros(zeros)
    ensures (forall c <- zeros :: IsDigit(c)) && DigitsValue(zeros) == 0
    decreases |zeros|
  {
    if zeros != [] {
      ZerosAreZero(zeros[..|zeros| - 1]);
    }
  }

  /** A numeral is the decimal one with zeros before it, unless it is zeros altogether. */
  lemma {:induction false} NumeralParts(s: string) returns (zeros: string)
    requires s != [] && forall c <- s :: IsDigit(c)
    ensures AllZeros(zeros) && s == zeros + Decimal(DigitsValue(s))
    decreases |s|
  {
    var init, last := s[..|s| - 1], s[|s| - 1];
    assert s == init + [last] && last in s;
    if init == [] || DigitsValue(init) == 0 {
      zeros := init;
      if init != [] {
        var z := NumeralParts(init);
        assert Decimal(0) == ['0'];
      }
    } else {
      zeros := NumeralParts(init);
    }
  }

  /** The numerals of a port: its decimal form, after any zeros and a plus sign that may be there. */
  ghost predicate Spells(s: string, p: U16) {
    exists zeros: string :: AllZeros(zeros) && (s == zeros + Decimal(p) || s == ['+'] + (zeros + Decimal(p)))
  }

  lemma SpellingParses(zeros: string, p: U16)
    requires AllZeros(zeros)
    ensures var digits := zeros + Decimal(p);
            digits[0] != '+' && digits != [] && (forall c <- digits :: IsDigit(c)) && DigitsValue(digits) == p
  {
    ZerosCountNothing(zeros, Decimal(p));
    DecimalValue(p);
    var digits := zeros + Decimal(p);
    assert digits[0] in digits;
  }

  lemma ParseU16Exactly(s: string, p: U16)
    ensures ParseU16(s) == Some(p) <==> Spells(s, p)
  {
    if ParseU16(s) == Some(p) {
      var digits := if s[0] == '+' then s[1..] else s;
      var zeros := NumeralParts(digits);
      assert s[0] == '+' ==> s == ['+'] + digits;
    }
    forall zeros: string | AllZeros(zeros)
      ensures s == zeros + Decimal(p) || s == ['+'] + (zeros + Decimal(p)) ==> ParseU16(s) == Some(p)
    {
      SpellingParses(zeros, p);
      assert s == ['+'] + (zeros + Decimal(p)) ==> s[1..] == zeros + Decimal(p);
    }
  }
}
