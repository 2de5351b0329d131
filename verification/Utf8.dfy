/** UTF-8, as Rust strings store their characters and as `from_utf8` checks received bytes. */
module Utf8 {
  import opened Wrappers

  function EncodeChar(c: char): (bytes: Bytes)
    ensures 1 <= |bytes| <= 4
  {
    var n := c as int;
    if n < 0x80 then [n]
    else if n < 0x800 then [0xC0 + n / 0x40, 0x80 + n % 0x40]
    else if n < 0x1_0000 then [0xE0 + n / 0x1000, 0x80 + n / 0x40 % 0x40, 0x80 + n % 0x40]
    else [0xF0 + n / 0x4_0000, 0x80 + n / 0x1000 % 0x40, 0x80 + n / 0x40 % 0x40, 0x80 + n % 0x40]
  }

  function Encode(s: string): Bytes {
    if s == [] then [] else EncodeChar(s[0]) + Encode(s[1..])
  }

  predicate Continuation(b: Byte) {
    0x80 <= b < 0xC0
  }

  function CodePoint2(a: int, b: int): int {
    (a - 0xC0) * 0x40 + (b - 0x80)
  }

  function CodePoint3(a: int, b: int, c: int): int {
    (a - 0xE0) * 0x1000 + (b - 0x80) * 0x40 + (c - 0x80)
  }

  function CodePoint4(a: int, b: int, c: int, d: int): int {
    (a - 0xF0) * 0x4_0000 + (b - 0x80) * 0x1000 + (c - 0x80) * 0x40 + (d - 0x80)
  }

  /** The code point of one leading character and the number of bytes it takes: overlong forms,
      surrogates and values above U+10FFFF are refused. */
  function DecodeChar(bytes: Bytes): (r: Option<(char, nat)>)
    ensures r.Some? ==> 1 <= r.value.1 <= |bytes|
  {
    if |bytes| >= 1 && bytes[0] < 0x80 then
      Some((bytes[0] as char, 1))
    else if |bytes| >= 2 && 0xC2 <= bytes[0] < 0xE0 && Continuation(bytes[1]) then
      Some((CodePoint2(bytes[0], bytes[1]) as char, 2))
    else if |bytes| >= 3 && 0xE0 <= bytes[0] < 0xF0 && Continuation(bytes[1]) && Continuation(bytes[2]) then
      var n := CodePoint3(bytes[0], bytes[1], bytes[2]);
      if n < 0x800 || 0xD800 <= n < 0xE000 then None else Some((n as char, 3))
    else if |bytes| >= 4 && 0xF0 <= bytes[0] < 0xF5
            && Continuation(bytes[1]) && Continuation(bytes[2]) && Continuation(bytes[3]) then
      var n := CodePoint4(bytes[0], bytes[1], bytes[2], bytes[3]);
      if n < 0x1_0000 || 0x11_0000 <= n then None else Some((n as char, 4))
    else
      None
  }

  function Decode(bytes: Bytes): Option<string> {
    if bytes == [] then Some([])
    else
      match DecodeChar(bytes)
      case None => None
      case Some((c, n)) =>
        match Decode(bytes[n..])
        case None => None
        case Some(s) => Some([c] + s)
  }

  lemma Join3(n: int)
    ensures CodePoint3(0xE0 + n / 0x1000, 0x80 + n / 0x40 % 0x40, 0x80 + n % 0x40) == n
  {
    assert n / 0x1000 == n / 0x40 / 0x40;
  }

  lemma Join4(n: int)
    ensures CodePoint4(0xF0 + n / 0x4_0000, 0x80 + n / 0x1000 % 0x40, 0x80 + n / 0x40 % 0x40, 0x80 + n % 0x40) == n
  {
    var m := n / 0x40;
    assert n / 0x1000 == m / 0x40;
    assert n / 0x4_0000 == m / 0x1000;
    assert m == 0x1000 * (m / 0x1000) + 0x40 * (m / 0x40 % 0x40) + m % 0x40 by { Join3(m); }
  }

  lemma DecodeCharEncodeChar(c: char, rest: Bytes)
    ensures DecodeChar(EncodeChar(c) + rest) == Some((c, |EncodeChar(c)|))
  {
    var n := c as int;
    var code := EncodeChar(c);
    var bytes := code + rest;
    assert forall i :: 0 <= i < |code| ==> bytes[i] == code[i];
    if n < 0x80 {
    } else if n < 0x800 {
      assert CodePoint2(code[0], code[1]) == n;
    } else if n < 0x1_0000 {
      Join3(n);
    } else {
      Join4(n);
    }
  }

  lemma Digits3(a: int, b: int, c: int, n: int)
    requires 0x80 <= b < 0xC0 && 0x80 <= c < 0xC0 && n == CodePoint3(a, b, c)
    ensures 0xE0 + n / 0x1000 == a && 0x80 + n / 0x40 % 0x40 == b && 0x80 + n % 0x40 == c
  {
    assert n / 0x40 == (a - 0xE0) * 0x40 + (b - 0x80);
  }

  lemma Digits4(a: int, b: int, c: int, d: int, n: int)
    requires 0x80 <= b < 0xC0 && 0x80 <= c < 0xC0 && 0x80 <= d < 0xC0 && n == CodePoint4(a, b, c, d)
    ensures 0xF0 + n / 0x4_0000 == a && 0x80 + n / 0x1000 % 0x40 == b
    ensures 0x80 + n / 0x40 % 0x40 == c && 0x80 + n % 0x40 == d
  {
    assert n / 0x40 == (a - 0xF0) * 0x1000 + (b - 0x80) * 0x40 + (c - 0x80);
    assert n / 0x1000 == (a - 0xF0) * 0x40 + (b - 0x80);
  }

  lemma EncodeCharDecodeChar(bytes: Bytes)
    requires DecodeChar(bytes).Some?
    ensures EncodeChar(DecodeChar(bytes).value.0) == bytes[..DecodeChar(bytes).value.1]
  {
    var (c, k) := DecodeChar(bytes).value;
    if k == 3 {
      Digits3(bytes[0], bytes[1], bytes[2], c as int);
    } else if k == 4 {
      Digits4(bytes[0], bytes[1], bytes[2], bytes[3], c as int);
    }
  }

  lemma {:induction false} DecodeEncode(s: string)
    ensures Decode(Encode(s)) == Some(s)
  {
    if s != [] {
      var tail := Encode(s[1..]);
      DecodeCharEncodeChar(s[0], tail);
      assert (EncodeChar(s[0]) + tail)[|EncodeChar(s[0])|..] == tail;
      DecodeEncode(s[1..]);
      assert s == [s[0]] + s[1..];
    }
  }

  lemma EncodeMore(c: char, s: string)
    ensures Encode([c] + s) == EncodeChar(c) + Encode(s)
  {
    assert ([c] + s)[1..] == s;
  }

  lemma DecodeParts(bytes: Bytes)
    requires bytes != [] && Decode(bytes).Some?
    ensures DecodeChar(bytes).Some?
    ensures var (c, n) := DecodeChar(bytes).value;
            Decode(bytes[n..]).Some? && Decode(bytes).value == [c] + Decode(bytes[n..]).value
  {
  }

  lemma SplitAt(bytes: Bytes, n: nat)
    requires n <= |bytes|
    ensures bytes == bytes[..n] + bytes[n..]
  {
  }

  lemma {:induction false} EncodeDecode(bytes: Bytes)
    requires Decode(bytes).Some?
    ensures Encode(Decode(bytes).value) == bytes
  {
    if bytes != [] {
      DecodeParts(bytes);
      var (c, n) := DecodeChar(bytes).value;
      EncodeCharDecodeChar(bytes);
      EncodeDecode(bytes[n..]);
      EncodeMore(c, Decode(bytes[n..]).value);
      SplitAt(bytes, n);
    }
  }

  /** A Rust string and its UTF-8 bytes determine each other. */
  lemma Bijection(s: string, bytes: Bytes)
    ensures Decode(bytes) == Some(s) <==> bytes == Encode(s)
  {
    DecodeEncode(s);
    if Decode(bytes) == Some(s) {
      EncodeDecode(bytes);
    }
  }

  /** One character's bytes, by the table of section 3 of RFC 3629. */
  lemma CharBytes(c: char)
    ensures var n, b := c as int, EncodeChar(c);
            && (n < 0x80 ==> b == [n])
            && (0x80 <= n < 0x800 ==>
                  |b| == 2 && 0xC0 <= b[0] < 0xE0 && 0x80 <= b[1] < 0xC0 && n == 64 * (b[0] as int - 0xC0) + (b[1] as int - 0x80))
            && (0x800 <= n < 0x1_0000 ==>
                  && |b| == 3 && 0xE0 <= b[0] < 0xF0 && 0x80 <= b[1] < 0xC0 && 0x80 <= b[2] < 0xC0
                  && n == 4096 * (b[0] as int - 0xE0) + 64 * (b[1] as int - 0x80) + (b[2] as int - 0x80))
            && (0x1_0000 <= n ==>
                  && |b| == 4 && 0xF0 <= b[0] < 0xF8 && 0x80 <= b[1] < 0xC0 && 0x80 <= b[2] < 0xC0 && 0x80 <= b[3] < 0xC0
                  && n == 262144 * (b[0] as int - 0xF0) + 4096 * (b[1] as int - 0x80) + 64 * (b[2] as int - 0x80) + (b[3] as int - 0x80))
  {
    Join3(c as int);
    Join4(c as int);
  }

  /** A text's bytes are those of its characters, in order. */
  lemma {:induction false} EncodeConcat(s: string, t: string)
    ensures Encode(s + t) == Encode(s) + Encode(t)
    decreases |s|
  {
    if s == [] {
      assert s + t == t;
    } else {
      assert (s + t)[1..] == s[1..] + t;
      EncodeConcat(s[1..], t);
    }
  }
}
