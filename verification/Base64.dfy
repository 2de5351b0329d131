/** Base 64 with the standard alphabet and canonical padding, section 4 of RFC 4648. */
module Base64 {
  import opened Wrappers

  type Sextet = v: int | 0 <= v < 64

  const PAD: char := '='

  function Symbol(v: Sextet): char {
    if v < 26 then ('A' as int + v) as char
    else if v < 52 then ('a' as int + v - 26) as char
    else if v < 62 then ('0' as int + v - 52) as char
    else if v == 62 then '+'
    else '/'
  }

  function SymbolValue(c: char): Option<Sextet> {
    if 'A' <= c <= 'Z' then Some(c as int - 'A' as int)
    else if 'a' <= c <= 'z' then Some(c as int - 'a' as int + 26)
    else if '0' <= c <= '9' then Some(c as int - '0' as int + 52)
    else if c == '+' then Some(62)
    else if c == '/' then Some(63)
    else None
  }

  lemma SymbolValues(v: Sextet, c: char)
    ensures SymbolValue(c) == Some(v) <==> c == Symbol(v)
    ensures Symbol(v) != PAD
  {
  }

  /** Three bytes as four symbols. */
  function Quad(a: Byte, b: Byte, c: Byte): (r: string)
    ensures |r| == 4
  {
    [Symbol(a / 4), Symbol(a % 4 * 16 + b / 16), Symbol(b % 16 * 4 + c / 64), Symbol(c % 64)]
  }

  function Encode(bytes: Bytes): (r: string)
    ensures |r| == (|bytes| + 2) / 3 * 4
  {
    if bytes == [] then []
    else if |bytes| == 1 then Quad(bytes[0], 0, 0)[..2] + [PAD, PAD]
    else if |bytes| == 2 then Quad(bytes[0], bytes[1], 0)[..3] + [PAD]
    else Quad(bytes[0], bytes[1], bytes[2]) + Encode(bytes[3..])
  }

  function FirstByte(v: Sextet, w: Sextet): Byte {
    v * 4 + w / 16
  }

  function SecondByte(w: Sextet, x: Sextet): Byte {
    w % 16 * 16 + x / 4
  }

  function ThirdByte(x: Sextet, y: Sextet): Byte {
    x % 4 * 64 + y
  }

  /** The last group; the bits that no byte uses must be zero. */
  function DecodePadded(s: string): Option<Bytes>
    requires |s| == 4 && s[3] == PAD
  {
    match (SymbolValue(s[0]), SymbolValue(s[1]))
    case (Some(v), Some(w)) =>
      if s[2] == PAD then if w % 16 == 0 then Some([FirstByte(v, w)]) else None
      else
        (match SymbolValue(s[2])
         case Some(x) => if x % 4 == 0 then Some([FirstByte(v, w), SecondByte(w, x)]) else None
         case None => None)
    case _ => None
  }

  function DecodeQuad(s: string): Option<Bytes>
    requires |s| == 4
  {
    match (SymbolValue(s[0]), SymbolValue(s[1]))
    case (Some(v), Some(w)) =>
      (match (SymbolValue(s[2]), SymbolValue(s[3]))
       case (Some(x), Some(y)) => Some([FirstByte(v, w), SecondByte(w, x), ThirdByte(x, y)])
       case _ => None)
    case _ => None
  }

  function Decode(s: string): Option<Bytes> {
    if s == [] then Some([])
    else if |s| < 4 then None
    else if |s| == 4 && s[3] == PAD then DecodePadded(s)
    else
      match (DecodeQuad(s[..4]), Decode(s[4..]))
      case (Some(three), Some(rest)) => Some(three + rest)
      case _ => None
  }

  lemma ByteBits(a: Byte, b: Byte, c: Byte)
    ensures a % 4 * 16 + b / 16 < 64 && b % 16 * 4 + c / 64 < 64
    ensures FirstByte(a / 4, a % 4 * 16 + b / 16) == a
    ensures SecondByte(a % 4 * 16 + b / 16, b % 16 * 4 + c / 64) == b
    ensures ThirdByte(b % 16 * 4 + c / 64, c % 64) == c
  {
  }

  lemma SextetBits(v: Sextet, w: Sextet, x: Sextet, y: Sextet)
    ensures FirstByte(v, w) / 4 == v
    ensures FirstByte(v, w) % 4 * 16 + SecondByte(w, x) / 16 == w
    ensures SecondByte(w, x) % 16 * 4 + ThirdByte(x, y) / 64 == x
    ensures ThirdByte(x, y) % 64 == y
  {
  }

  lemma QuadDecodes(a: Byte, b: Byte, c: Byte)
    ensures DecodeQuad(Quad(a, b, c)) == Some([a, b, c])
  {
    ByteBits(a, b, c);
    var t := Quad(a, b, c);
    SymbolValues(a / 4, t[0]);
    SymbolValues(a % 4 * 16 + b / 16, t[1]);
    SymbolValues(b % 16 * 4 + c / 64, t[2]);
    SymbolValues(c % 64, t[3]);
  }

  lemma SymbolsUnique(s: string, v: Sextet, w: Sextet, x: Sextet, y: Sextet)
    requires |s| == 4 && SymbolValue(s[0]) == Some(v) && SymbolValue(s[1]) == Some(w)
    requires SymbolValue(s[2]) == Some(x) && SymbolValue(s[3]) == Some(y)
    ensures s == [Symbol(v), Symbol(w), Symbol(x), Symbol(y)]
  {
    SymbolValues(v, s[0]);
    SymbolValues(w, s[1]);
    SymbolValues(x, s[2]);
    SymbolValues(y, s[3]);
  }

  lemma PaddedTwo(s: string, a: Byte, b: Byte)
    requires |s| == 4 && s[3] == PAD
    ensures DecodePadded(s) == Some([a, b]) <==> s == Encode([a, b])
  {
    ByteBits(a, b, 0);
    var t := Quad(a, b, 0);
    SymbolValues(a / 4, t[0]);
    SymbolValues(a % 4 * 16 + b / 16, t[1]);
    SymbolValues(b % 16 * 4, t[2]);
    assert Encode([a, b]) == t[..3] + [PAD];
    if DecodePadded(s) == Some([a, b]) {
      var v, w, x := SymbolValue(s[0]).value, SymbolValue(s[1]).value, SymbolValue(s[2]).value;
      var d := [FirstByte(v, w), SecondByte(w, x)];
      assert d[0] == a && d[1] == b;
      SextetBits(v, w, x, 0);
      SymbolValues(v, s[0]);
      SymbolValues(w, s[1]);
      SymbolValues(x, s[2]);
    }
  }

  lemma PaddedOne(s: string, a: Byte)
    requires |s| == 4 && s[3] == PAD
    ensures DecodePadded(s) == Some([a]) <==> s == Encode([a])
  {
    ByteBits(a, 0, 0);
    var t := Quad(a, 0, 0);
    SymbolValues(a / 4, t[0]);
    SymbolValues(a % 4 * 16, t[1]);
    assert Encode([a]) == t[..2] + [PAD, PAD];
    if DecodePadded(s) == Some([a]) {
      var v, w := SymbolValue(s[0]).value, SymbolValue(s[1]).value;
      var d := [FirstByte(v, w)];
      assert d[0] == a;
      SextetBits(v, w, 0, 0);
      SymbolValues(v, s[0]);
      SymbolValues(w, s[1]);
    }
  }

  lemma PaddedSize(s: string)
    requires |s| == 4 && s[3] == PAD
    ensures DecodePadded(s).Some? ==> |DecodePadded(s).value| == 1 || |DecodePadded(s).value| == 2
  {
  }

  /** Exactly the canonical encodings decode, each to the bytes that it encodes. */
  lemma {:induction false} DecodeExactly(s: string, bytes: Bytes)
    ensures Decode(s) == Some(bytes) <==> s == Encode(bytes)
    decreases |s| + |bytes|
  {
    if |s| == 4 && s[3] == PAD {
      PaddedSize(s);
      if |bytes| == 1 {
        assert bytes == [bytes[0]];
        PaddedOne(s, bytes[0]);
      } else if |bytes| == 2 {
        assert bytes == [bytes[0], bytes[1]];
        PaddedTwo(s, bytes[0], bytes[1]);
      } else if |bytes| == 3 {
        SymbolValues(bytes[2] % 64, PAD);
        assert bytes[3..] == [];
      }
    } else if |s| >= 4 {
      FullQuad(s, bytes);
    }
  }

  /** Splitting off a group on both sides. */
  lemma GroupSplit(s: string, quad: string, encoded: string)
    requires |s| >= 4 && |quad| == 4
    ensures s == quad + encoded <==> s[..4] == quad && s[4..] == encoded
  {
    assert s == s[..4] + s[4..];
    assert (quad + encoded)[..4] == quad && (quad + encoded)[4..] == encoded;
  }

  lemma BytesSplit(bytes: Bytes, three: Bytes, rest: Bytes)
    requires |bytes| >= 3 && |three| == 3
    ensures bytes == three + rest <==> three == [bytes[0], bytes[1], bytes[2]] && rest == bytes[3..]
  {
    assert bytes == bytes[..3] + bytes[3..];
    assert (three + rest)[..3] == three && (three + rest)[3..] == rest;
  }

  /** Four symbols that decode are the encoding of their bytes. */
  lemma SymbolsBack(quad: string, a: Byte, b: Byte, c: Byte)
    requires |quad| == 4 && DecodeQuad(quad) == Some([a, b, c])
    ensures quad == Quad(a, b, c)
  {
    var v, w, x, y := SymbolValue(quad[0]).value, SymbolValue(quad[1]).value, SymbolValue(quad[2]).value, SymbolValue(quad[3]).value;
    var d := [FirstByte(v, w), SecondByte(w, x), ThirdByte(x, y)];
    assert d[0] == a && d[1] == b && d[2] == c;
    SextetBits(v, w, x, y);
    SymbolsUnique(quad, v, w, x, y);
  }

  /** A first group that decodes, and a rest that is the encoding of the rest. */
  lemma QuadBack(s: string, bytes: Bytes)
    requires |s| >= 4 && !(|s| == 4 && s[3] == PAD) && |bytes| >= 3 && Decode(s) == Some(bytes)
    requires Decode(s[4..]) == Some(bytes[3..]) ==> s[4..] == Encode(bytes[3..])
    ensures s == Encode(bytes)
  {
    var three := DecodeQuad(s[..4]).value;
    BytesSplit(bytes, three, Decode(s[4..]).value);
    SymbolsBack(s[..4], bytes[0], bytes[1], bytes[2]);
    EncodeStep(bytes);
    GroupSplit(s, Quad(bytes[0], bytes[1], bytes[2]), Encode(bytes[3..]));
  }

  lemma EncodeStep(bytes: Bytes)
    requires |bytes| >= 3
    ensures Encode(bytes) == Quad(bytes[0], bytes[1], bytes[2]) + Encode(bytes[3..])
  {
  }

  lemma DecodeGroup(quad: string, rest: string)
    requires |quad| == 4 && !(rest == [] && quad[3] == PAD) && DecodeQuad(quad).Some? && Decode(rest).Some?
    ensures Decode(quad + rest) == Some(DecodeQuad(quad).value + Decode(rest).value)
  {
    assert (quad + rest)[..4] == quad && (quad + rest)[4..] == rest;
  }

  lemma FullQuad(s: string, bytes: Bytes)
    requires |s| >= 4 && !(|s| == 4 && s[3] == PAD)
    ensures Decode(s) == Some(bytes) <==> s == Encode(bytes)
    decreases |s| + |bytes|, 0
  {
    if |bytes| < 3 {
      ShortBytes(s, bytes);
    } else {
      DecodeExactly(s[4..], bytes[3..]);
      if Decode(s) == Some(bytes) {
        QuadBack(s, bytes);
      }
      if s == Encode(bytes) {
        var quad := Quad(bytes[0], bytes[1], bytes[2]);
        GroupSplit(s, quad, Encode(bytes[3..]));
        QuadDecodes(bytes[0], bytes[1], bytes[2]);
        DecodeGroup(quad, Encode(bytes[3..]));
        BytesSplit(bytes, [bytes[0], bytes[1], bytes[2]], bytes[3..]);
      }
    }
  }

  lemma ShortBytes(s: string, bytes: Bytes)
    requires |s| >= 4 && !(|s| == 4 && s[3] == PAD) && |bytes| < 3
    ensures Decode(s) != Some(bytes) && s != Encode(bytes)
  {
    if |bytes| == 1 {
      assert Encode(bytes)[3] == PAD;
    } else if |bytes| == 2 {
      assert Encode(bytes)[3] == PAD;
    }
  }

  // ---------------------------------------------------------------------------
  // Table 1 and the grouping of section 4 of RFC 4648
  // ---------------------------------------------------------------------------

  lemma Alphabet()
    ensures Symbol(0) == 'A' && Symbol(1) == 'B' && Symbol(2) == 'C' && Symbol(3) == 'D' && Symbol(4) == 'E'
    ensures Symbol(5) == 'F' && Symbol(6) == 'G' && Symbol(7) == 'H' && Symbol(8) == 'I' && Symbol(9) == 'J'
    ensures Symbol(10) == 'K' && Symbol(11) == 'L' && Symbol(12) == 'M' && Symbol(13) == 'N' && Symbol(14) == 'O'
    ensures Symbol(15) == 'P' && Symbol(16) == 'Q' && Symbol(17) == 'R' && Symbol(18) == 'S' && Symbol(19) == 'T'
    ensures Symbol(20) == 'U' && Symbol(21) == 'V' && Symbol(22) == 'W' && Symbol(23) == 'X' && Symbol(24) == 'Y'
    ensures Symbol(25) == 'Z' && Symbol(26) == 'a' && Symbol(27) == 'b' && Symbol(28) == 'c' && Symbol(29) == 'd'
    ensures Symbol(30) == 'e' && Symbol(31) == 'f' && Symbol(32) == 'g' && Symbol(33) == 'h' && Symbol(34) == 'i'
    ensures Symbol(35) == 'j' && Symbol(36) == 'k' && Symbol(37) == 'l' && Symbol(38) == 'm' && Symbol(39) == 'n'
    ensures Symbol(40) == 'o' && Symbol(41) == 'p' && Symbol(42) == 'q' && Symbol(43) == 'r' && Symbol(44) == 's'
    ensures Symbol(45) == 't' && Symbol(46) == 'u' && Symbol(47) == 'v' && Symbol(48) == 'w' && Symbol(49) == 'x'
    ensures Symbol(50) == 'y' && Symbol(51) == 'z' && Symbol(52) == '0' && Symbol(53) == '1' && Symbol(54) == '2'
    ensures Symbol(55) == '3' && Symbol(56) == '4' && Symbol(57) == '5' && Symbol(58) == '6' && Symbol(59) == '7'
    ensures Symbol(60) == '8' && Symbol(61) == '9' && Symbol(62) == '+' && Symbol(63) == '/'
  {
  }

  /** Four symbols stand for the 24 bits of three bytes, the high ones first. */
  lemma QuadBits(a: Byte, b: Byte, c: Byte, v: Sextet, w: Sextet, x: Sextet, y: Sextet)
    ensures Encode([a, b, c]) == [Symbol(v), Symbol(w), Symbol(x), Symbol(y)] <==>
            65536 * a as int + 256 * b as int + c as int == 262144 * v as int + 4096 * w as int + 64 * x as int + y as int
  {
    assert [a, b, c][3..] == [];
    assert Encode([a, b, c]) == Quad(a, b, c) + [] == Quad(a, b, c);
    SymbolInjective(a / 4, v);
    SymbolInjective(a % 4 * 16 + b / 16, w);
    SymbolInjective(b % 16 * 4 + c / 64, x);
    SymbolInjective(c % 64, y);
    SextetBits(v, w, x, y);
    ByteBits(a, b, c);
  }

  lemma SymbolInjective(v: Sextet, w: Sextet)
    ensures Symbol(v) == Symbol(w) <==> v == w
  {
    SymbolValues(v, Symbol(w));
    SymbolValues(w, Symbol(w));
  }

  lemma OneSplit(a: Byte, v: Sextet, w: Sextet)
    ensures 16 * a as int == 64 * v as int + w as int <==> v == a / 4 && w == a % 4 * 16
  {
  }

  lemma TwoSplit(a: Byte, b: Byte, v: Sextet, w: Sextet, x: Sextet)
    ensures 1024 * a as int + 4 * b as int == 4096 * v as int + 64 * w as int + x as int <==>
            v == a / 4 && w == a % 4 * 16 + b / 16 && x == b % 16 * 4
  {
    assert 1024 * a as int + 4 * b as int == 4096 * (a / 4) + 64 * (a % 4 * 16 + b / 16) + b % 16 * 4 by {
      assert a as int == 4 * (a / 4) + a % 4 && b as int == 16 * (b / 16) + b % 16;
    }
    SextetsUnique(v, w, x, a / 4, a % 4 * 16 + b / 16, b % 16 * 4);
  }

  lemma SextetsUnique(v: Sextet, w: Sextet, x: Sextet, v': Sextet, w': Sextet, x': Sextet)
    ensures 4096 * v as int + 64 * w as int + x as int == 4096 * v' as int + 64 * w' as int + x' as int <==>
            v == v' && w == w' && x == x'
  {
  }

  /** A last group of one or two bytes is filled up with zero bits and the padding sign. */
  lemma PaddedBits(a: Byte, b: Byte, v: Sextet, w: Sextet, x: Sextet)
    ensures Encode([a]) == [Symbol(v), Symbol(w), '=', '='] <==> 16 * a as int == 64 * v as int + w as int
    ensures Encode([a, b]) == [Symbol(v), Symbol(w), Symbol(x), '='] <==>
            1024 * a as int + 4 * b as int == 4096 * v as int + 64 * w as int + x as int
  {
    SymbolInjective(a / 4, v);
    SymbolInjective(a % 4 * 16, w);
    SymbolInjective(a % 4 * 16 + b / 16, w);
    SymbolInjective(b % 16 * 4, x);
    OneSplit(a, v, w);
    TwoSplit(a, b, v, w, x);
    assert Encode([a]) == [Symbol(a / 4), Symbol(a % 4 * 16), '=', '='];
    assert Encode([a, b]) == [Symbol(a / 4), Symbol(a % 4 * 16 + b / 16), Symbol(b % 16 * 4), '='];
  }

  lemma EncodeMore(a: Byte, b: Byte, c: Byte, rest: Bytes)
    ensures Encode([a, b, c] + rest) == Quad(a, b, c) + Encode(rest)
  {
    assert ([a, b, c] + rest)[3..] == rest;
  }

  lemma ThreeFirst(bytes: Bytes, rest: Bytes)
    requires |bytes| >= 3
    ensures bytes == [bytes[0], bytes[1], bytes[2]] + bytes[3..]
    ensures bytes + rest == [bytes[0], bytes[1], bytes[2]] + (bytes[3..] + rest)
  {
  }

  lemma GroupHead(first: Bytes, rest: Bytes)
    requires |first| >= 3 && Encode(first[3..] + rest) == Encode(first[3..]) + Encode(rest)
    ensures Encode(first + rest) == Encode(first) + Encode(rest)
  {
    ThreeFirst(first, rest);
    EncodeMore(first[0], first[1], first[2], first[3..]);
    EncodeMore(first[0], first[1], first[2], first[3..] + rest);
    Regroup(Quad(first[0], first[1], first[2]), Encode(first[3..]), Encode(rest));
  }

  lemma Regroup(a: string, b: string, c: string)
    ensures a + (b + c) == a + b + c
  {
  }

  /** Whole groups are encoded one after the other. */
  lemma {:induction false} GroupsApart(first: Bytes, rest: Bytes)
    requires |first| % 3 == 0
    ensures Encode(first + rest) == Encode(first) + Encode(rest)
    decreases |first|
  {
    if first == [] {
      assert first + rest == rest;
    } else {
      GroupsApart(first[3..], rest);
      GroupHead(first, rest);
    }
  }
}
