/** The authorized_keys file: formatting one key as a line and parsing a whole file. */
module AuthorizedKeys {
  import opened Wrappers
  import opened Text
  import Base64

  const KEY_TYPE: string := "ml-dsa-65"
  const SPACE: char := ' '
  const NEWLINE: char := '\n'

  /** `format_authorized_key`. */
  function Format(key: Bytes, comment: string): string {
    KEY_TYPE + ([SPACE] + (Base64.Encode(key) + if comment == [] then [] else [SPACE] + comment))
  }

  /** The key of one line: comments, blank lines, other key types and bad encodings have none. */
  function ParseLine(line: string): Option<Bytes> {
    var t := Trim(line);
    if t == [] || t[0] == '#' then None
    else
      var words := Words(line);
      if |words| < 2 || words[0] != KEY_TYPE then None else Base64.Decode(words[1])
  }

  function ParseLines(lines: seq<string>): seq<Bytes> {
    if lines == [] then []
    else LineKeys(lines[0]) + ParseLines(lines[1..])
  }

  function LineKeys(line: string): seq<Bytes> {
    match ParseLine(line) case Some(key) => [key] case None => []
  }

  function ParseKeys(contents: string): seq<Bytes> {
    ParseLines(Lines(contents))
  }

  // ---------------------------------------------------------------------------
  // One line
  // ---------------------------------------------------------------------------

  lemma SymbolIsInk(v: Base64.Sextet)
    ensures !IsWhitespace(Base64.Symbol(v)) && Base64.Symbol(v) != NEWLINE
    ensures !IsWhitespace(Base64.PAD)
  {
  }

  lemma {:induction false} EncodedInk(key: Bytes)
    ensures NoWhitespace(Base64.Encode(key))
    decreases |key|
  {
    if key != [] {
      var a, b, c := key[0], if |key| > 1 then key[1] else 0, if |key| > 2 then key[2] else 0;
      SymbolIsInk(a / 4);
      SymbolIsInk(a % 4 * 16 + b / 16);
      SymbolIsInk(b % 16 * 4 + c / 64);
      SymbolIsInk(c % 64);
      assert NoWhitespace(Base64.Quad(a, b, c));
      if |key| >= 3 {
        EncodedInk(key[3..]);
        InkConcat(Base64.Quad(a, b, c), Base64.Encode(key[3..]));
      }
    }
  }

  lemma InkConcat(a: string, b: string)
    requires NoWhitespace(a) && NoWhitespace(b)
    ensures NoWhitespace(a + b)
  {
  }

  lemma KeyTypeInk()
    ensures NoWhitespace(KEY_TYPE) && |KEY_TYPE| == 9 && KEY_TYPE[0] == 'm'
  {
  }

  /** Whatever follows the key on its line, if anything, starts with a space. */
  predicate IsTail(tail: string) {
    tail == [] || tail[0] == SPACE
  }

  lemma LineWords(word: string, tail: string)
    requires NoWhitespace(word) && IsTail(tail)
    ensures var line := KEY_TYPE + ([SPACE] + (word + tail));
            && Trim(line) != [] && Trim(line)[0] == 'm'
            && Words(line) == [KEY_TYPE] + if word == [] then Words(tail) else [word] + Words(tail)
  {
    KeyTypeInk();
    var line := KEY_TYPE + ([SPACE] + (word + tail));
    assert line[0] == KEY_TYPE[0];
    TrimKeepsFirst(line);
    WordsHead(KEY_TYPE, [SPACE] + (word + tail));
    WordsSpace(SPACE, word + tail);
    if word == [] {
      assert word + tail == tail;
    } else {
      WordsHead(word, tail);
    }
  }

  lemma {:induction false} WordsNonEmpty(s: string)
    ensures [] !in Words(s)
    decreases |s|
  {
    var t := TrimStart(s);
    if t != [] && !IsWhitespace(t[0]) {
      WordsNonEmpty(t[WordEnd(t)..]);
    }
  }

  /** A formatted key comes back from its line exactly when it is not empty. */
  lemma KeyLine(key: Bytes, tail: string)
    requires IsTail(tail)
    ensures ParseLine(KEY_TYPE + ([SPACE] + (Base64.Encode(key) + tail))) == Some(key) <==> key != []
  {
    EncodedInk(key);
    var word := Base64.Encode(key);
    LineWords(word, tail);
    Base64.DecodeExactly(word, key);
    if key == [] {
      WordsNonEmpty(tail);
      var words := [KEY_TYPE] + Words(tail);
      assert |words| >= 2 ==> words[1] == Words(tail)[0] && Words(tail)[0] in Words(tail);
      if |words| >= 2 {
        Base64.DecodeExactly(words[1], []);
      }
    }
  }

  /** The line: type, space, key, and a space before the comment if there is one. */
  lemma FormatText(key: Bytes, comment: string)
    ensures Format(key, []) == "ml-dsa-65 " + Base64.Encode(key)
    ensures comment != [] ==> Format(key, comment) == "ml-dsa-65 " + Base64.Encode(key) + " " + comment
  {
    assert "ml-dsa-65 " == KEY_TYPE + [SPACE];
  }

  lemma FormatRoundTripExactly(key: Bytes, comment: string)
    ensures ParseLine(Format(key, comment)) == Some(key) <==> key != []
  {
    KeyLine(key, if comment == [] then [] else [SPACE] + comment);
  }

  /** The line end that `lines` strips can only come off what follows the key. */
  lemma LineStripped(key: Bytes, tail: string)
    requires key != [] && IsTail(tail)
    ensures ParseLine(StripReturn(KEY_TYPE + ([SPACE] + (Base64.Encode(key) + tail)))) == Some(key)
  {
    var word := Base64.Encode(key);
    EncodedInk(key);
    var line := KEY_TYPE + ([SPACE] + (word + tail));
    if tail == [] {
      assert line[|line| - 1] == word[|word| - 1];
      KeyLine(key, []);
    } else {
      assert line[|line| - 1] == tail[|tail| - 1];
      var short := StripReturn(tail);
      assert StripReturn(line) == KEY_TYPE + ([SPACE] + (word + short));
      KeyLine(key, short);
    }
  }

  // ---------------------------------------------------------------------------
  // Whole files
  // ---------------------------------------------------------------------------

  lemma ParseHead(line: string, rest: seq<string>)
    ensures ParseLines([line] + rest) == LineKeys(line) + ParseLines(rest)
  {
    assert ([line] + rest)[0] == line && ([line] + rest)[1..] == rest;
  }

  lemma Regroup<T>(a: seq<T>, b: seq<T>, c: seq<T>)
    ensures a + b + c == a + (b + c)
  {
  }

  /** The first line of a text, and the rest of it. */
  lemma FirstLineKeys(line: string, rest: string)
    requires NEWLINE !in line
    ensures ParseKeys(line + [NEWLINE] + rest) == LineKeys(StripReturn(line)) + ParseKeys(rest)
  {
    LinesStep(line, rest);
    ParseHead(StripReturn(line), Lines(rest));
  }

  lemma OneLineKeys(line: string)
    requires NEWLINE !in line
    ensures ParseKeys(line + [NEWLINE]) == LineKeys(StripReturn(line))
  {
    FirstLineKeys(line, []);
    assert line + [NEWLINE] + [] == line + [NEWLINE];
    assert LineKeys(StripReturn(line)) + [] == LineKeys(StripReturn(line));
  }

  lemma BreakLine(first: string, rest: string, b: string)
    requires NEWLINE !in first
    requires ParseKeys(rest + [NEWLINE] + b) == ParseKeys(rest + [NEWLINE]) + ParseKeys(b)
    ensures ParseKeys(first + [NEWLINE] + rest + [NEWLINE] + b) ==
            ParseKeys(first + [NEWLINE] + rest + [NEWLINE]) + ParseKeys(b)
  {
    Regroup(first + [NEWLINE], rest, [NEWLINE]);
    Regroup(first + [NEWLINE], rest + [NEWLINE], b);
    FirstLineKeys(first, rest + [NEWLINE]);
    FirstLineKeys(first, rest + [NEWLINE] + b);
    Regroup(LineKeys(StripReturn(first)), ParseKeys(rest + [NEWLINE]), ParseKeys(b));
  }

  lemma SplitBreak(a: string) returns (first: string, rest: string)
    requires NEWLINE in a
    ensures a == first + [NEWLINE] + rest && NEWLINE !in first
  {
    var i := Find(a, NEWLINE).value;
    first, rest := a[..i], a[i + 1..];
  }

  /** A text that ends in a newline is parsed apart from what follows it. */
  lemma {:induction false} LinesApart(a: string, b: string)
    ensures ParseKeys(a + [NEWLINE] + b) == ParseKeys(a + [NEWLINE]) + ParseKeys(b)
    decreases |a|
  {
    if NEWLINE in a {
      var first, rest := SplitBreak(a);
      LinesApart(rest, b);
      BreakLine(first, rest, b);
    } else {
      FirstLineKeys(a, b);
      OneLineKeys(a);
    }
  }

  lemma FormatBreak(key: Bytes, note: string, rest: string)
    ensures Format(key, note + [NEWLINE] + rest) ==
            KEY_TYPE + ([SPACE] + (Base64.Encode(key) + ([SPACE] + note))) + [NEWLINE] + rest
  {
  }

  lemma TailOneLine(key: Bytes, tail: string)
    requires NEWLINE !in tail
    ensures NEWLINE !in KEY_TYPE + ([SPACE] + (Base64.Encode(key) + tail))
  {
    EncodedInk(key);
    KeyTypeInk();
    assert IsWhitespace(NEWLINE);
  }

  /** A comment that breaks its line gives its key, and then whatever the text after the break gives. */
  lemma CommentBreak(key: Bytes, note: string, rest: string)
    requires key != [] && NEWLINE !in note
    ensures ParseKeys(Format(key, note + [NEWLINE] + rest)) == [key] + ParseKeys(rest)
  {
    FormatBreak(key, note, rest);
    TailOneLine(key, [SPACE] + note);
    LineStripped(key, [SPACE] + note);
    LinesStep(KEY_TYPE + ([SPACE] + (Base64.Encode(key) + ([SPACE] + note))), rest);
  }

  /** Such a comment is harmless exactly when there is no key in the text after its first break. */
  lemma CommentBreakExactly(key: Bytes, note: string, rest: string)
    requires key != [] && NEWLINE !in note
    ensures ParseKeys(Format(key, note + [NEWLINE] + rest)) == [key] <==> ParseKeys(rest) == []
  {
    CommentBreak(key, note, rest);
  }

  /** Text after the first break of a comment, as it stands in a file. */
  function AfterBreak(comment: string): string {
    match Find(comment, NEWLINE)
    case None => []
    case Some(i) => comment[i + 1..] + [NEWLINE]
  }

  /** What one formatted key gives in a file, whatever its comment. */
  lemma FormatInFile(key: Bytes, comment: string)
    requires key != []
    ensures ParseKeys(Format(key, comment) + [NEWLINE]) == [key] + ParseKeys(AfterBreak(comment))
  {
    match Find(comment, NEWLINE)
    case None =>
      var tail := if comment == [] then [] else [SPACE] + comment;
      TailOneLine(key, tail);
      LineStripped(key, tail);
      OneLineKeys(Format(key, comment));
    case Some(i) =>
      var note, rest := comment[..i], comment[i + 1..];
      assert comment == note + [NEWLINE] + rest && comment + [NEWLINE] == note + [NEWLINE] + (rest + [NEWLINE]);
      FormatBreak(key, note, rest);
      FormatBreak(key, note, rest + [NEWLINE]);
      assert Format(key, comment) + [NEWLINE] == Format(key, note + [NEWLINE] + (rest + [NEWLINE]));
      CommentBreak(key, note, rest + [NEWLINE]);
  }

  lemma {:induction false} DecodedNonEmpty(lines: seq<string>)
    ensures [] !in ParseLines(lines)
    decreases |lines|
  {
    if lines != [] {
      DecodedNonEmpty(lines[1..]);
      var words := Words(lines[0]);
      WordsNonEmpty(lines[0]);
      if |words| >= 2 {
        assert words[1] in words;
        Base64.DecodeExactly(words[1], []);
      }
    }
  }

  /** A file interleaves formatted keys with other text. */
  datatype Item = Key(key: Bytes, comment: string) | Note(text: string)

  function TextOf(item: Item): string {
    match item case Key(key, comment) => Format(key, comment) case Note(text) => text
  }

  function KeysOf(item: Item): seq<Bytes> {
    match item case Key(key, _) => [key] case Note(_) => []
  }

  /** An item gives what it should: its key is not empty, and neither what follows the first break of a
      comment nor any other text holds a key. */
  predicate ItemOk(item: Item) {
    match item
    case Key(key, comment) => key != [] && ParseKeys(AfterBreak(comment)) == []
    case Note(text) => ParseKeys(text + [NEWLINE]) == []
  }

  lemma ItemExactly(item: Item)
    ensures ParseKeys(TextOf(item) + [NEWLINE]) == KeysOf(item) <==> ItemOk(item)
  {
    if item.Key? {
      if item.key == [] {
        DecodedNonEmpty(Lines(TextOf(item) + [NEWLINE]));
        assert [] in KeysOf(item);
      } else {
        FormatInFile(item.key, item.comment);
      }
    }
  }

  function Render(items: seq<Item>): string {
    if items == [] then [] else TextOf(items[0]) + [NEWLINE] + Render(items[1..])
  }

  function Keys(items: seq<Item>): seq<Bytes> {
    if items == [] then [] else KeysOf(items[0]) + Keys(items[1..])
  }

  ghost predicate AllOk(items: seq<Item>) {
    forall i :: 0 <= i < |items| ==> ItemOk(items[i])
  }

  /** Parsing a file gives exactly its keys, in order. */
  lemma {:induction false} FileRoundTrip(items: seq<Item>)
    requires AllOk(items)
    ensures ParseKeys(Render(items)) == Keys(items)
    decreases |items|
  {
    if items != [] {
      FileRoundTrip(items[1..]);
      ItemExactly(items[0]);
      assert ItemOk(items[0]);
      LinesApart(TextOf(items[0]), Render(items[1..]));
    }
  }

  /** An item with a key gives that key and perhaps others. */
  lemma ItemGives(item: Item)
    requires KeysOf(item) != [[]]
    ensures |ParseKeys(TextOf(item) + [NEWLINE])| >= |KeysOf(item)|
    ensures |ParseKeys(TextOf(item) + [NEWLINE])| == |KeysOf(item)| ==> ItemOk(item)
  {
    if item.Key? {
      FormatInFile(item.key, item.comment);
    }
  }

  lemma {:induction false} FileGives(items: seq<Item>)
    requires forall i :: 0 <= i < |items| ==> KeysOf(items[i]) != [[]]
    ensures |ParseKeys(Render(items))| >= |Keys(items)|
    ensures |ParseKeys(Render(items))| == |Keys(items)| ==> AllOk(items)
    decreases |items|
  {
    if items != [] {
      FileGives(items[1..]);
      ItemGives(items[0]);
      LinesApart(TextOf(items[0]), Render(items[1..]));
    }
  }

  lemma {:induction false} KeyInKeys(items: seq<Item>, i: nat, key: Bytes)
    requires i < |items| && KeysOf(items[i]) == [key]
    ensures key in Keys(items)
    decreases i
  {
    if i > 0 {
      KeyInKeys(items[1..], i - 1, key);
    } else {
      assert key in KeysOf(items[0]);
    }
  }

  /** And only then: an empty key never comes back, and any other bad item adds keys. */
  lemma FileRoundTripExactly(items: seq<Item>)
    ensures ParseKeys(Render(items)) == Keys(items) <==> AllOk(items)
  {
    if i :| 0 <= i < |items| && KeysOf(items[i]) == [[]] {
      KeyInKeys(items, i, []);
      DecodedNonEmpty(Lines(Render(items)));
      assert !ItemOk(items[i]);
    } else {
      FileGives(items);
      if AllOk(items) {
        FileRoundTrip(items);
      }
    }
  }

  /** Blank lines and comments hold no key, and nor do keys of another type. */
  lemma NoteLines(text: string)
    requires NEWLINE !in text
    requires var line := StripReturn(text);
             Trim(line) == [] || Trim(line)[0] == '#' || (Words(line) != [] && Words(line)[0] != KEY_TYPE)
    ensures ItemOk(Note(text))
  {
    OneLineKeys(text);
  }

  /** A comment without a break is always harmless. */
  lemma PlainComment(key: Bytes, comment: string)
    requires key != [] && NEWLINE !in comment
    ensures ItemOk(Key(key, comment))
  {
    assert AfterBreak(comment) == [];
  }

  /** One with a break makes a key of a formatted key after it. */
  lemma CommentAddsKey(key: Bytes, note: string, other: Bytes, comment: string)
    requires key != [] && other != [] && NEWLINE !in note && NEWLINE !in comment
    ensures ParseKeys(Format(key, note + [NEWLINE] + (Format(other, comment) + [NEWLINE]))) == [key, other]
  {
    CommentBreak(key, note, Format(other, comment) + [NEWLINE]);
    FormatInFile(other, comment);
    assert AfterBreak(comment) == [];
  }
}
