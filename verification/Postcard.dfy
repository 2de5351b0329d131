/** Postcard's encoding of the serde data model ("Varint Encoded Integers" and the tables that
    follow it in the Postcard wire format specification), with the decoder that reads one value off
    the front of a buffer. Message types are given by a `Schema`; their contents by a `Value`. */
module Postcard {
  import opened Wrappers
  import Utf8

  datatype Width = W16 | W32 | W64

  /** Structs and struct variants are right-nested pairs ending in `Unit`. */
  datatype Schema =
    | UnitOf
    | Varint(width: Width)
    | Boolean
    | Text
    | ByteVec
    | ByteArray(length: nat)
    | Optional(some: Schema)
    | ListOf(element: Schema)
    | PairOf(first: Schema, second: Schema)
    | Enum(variants: seq<Schema>)

  datatype Value =
    | Unit
    | Num(n: nat)
    | Flag(b: bool)
    | Str(s: string)
    | Raw(bytes: Bytes)
    | Array(bytes: Bytes)
    | Absent
    | Present(v: Value)
    | List(vs: seq<Value>)
    | Pair(first: Value, second: Value)
    | Variant(tag: nat, payload: Value)

  datatype DecodeError = UnexpectedEnd | BadVarint | BadBool | BadOption | BadUtf8 | BadVariant

  // ---------------------------------------------------------------------------
  // Varints
  // ---------------------------------------------------------------------------

  function MaxBytes(w: Width): nat {
    match w case W16 => 3 case W32 => 5 case W64 => 10
  }

  /** The largest value the last permitted byte may carry. */
  function LastByteMax(w: Width): nat {
    match w case W16 => 3 case W32 => 15 case W64 => 1
  }

  function Limit(w: Width): nat {
    match w case W16 => 0x1_0000 case W32 => 0x1_0000_0000 case W64 => 0x1_0000_0000_0000_0000
  }

  function EncodeVarint(n: nat): (bytes: Bytes)
    ensures bytes != []
  {
    if n < 0x80 then [n] else [0x80 + n % 0x80] + EncodeVarint(n / 0x80)
  }

  /** `i` is the number of bytes already read. */
  function DecodeVarintFrom(w: Width, i: nat, bytes: Bytes): (r: Result<(nat, Bytes), DecodeError>)
    requires i <= MaxBytes(w)
    ensures r.Ok? ==> |r.value.1| < |bytes| && r.value.1 == bytes[|bytes| - |r.value.1|..]
    decreases MaxBytes(w) - i
  {
    if i == MaxBytes(w) then Err(BadVarint)
    else if bytes == [] then Err(UnexpectedEnd)
    else if bytes[0] < 0x80 then
      if i == MaxBytes(w) - 1 && bytes[0] > LastByteMax(w) then Err(BadVarint)
      else Ok((bytes[0], bytes[1..]))
    else
      match DecodeVarintFrom(w, i + 1, bytes[1..])
      case Err(e) => Err(e)
      case Ok((high, rest)) => Ok((bytes[0] - 0x80 + 0x80 * high, rest))
  }

  function DecodeVarint(w: Width, bytes: Bytes): Result<(nat, Bytes), DecodeError> {
    DecodeVarintFrom(w, 0, bytes)
  }

  /** What still fits when `i` bytes have been read. */
  function Room(w: Width, i: nat): (room: nat)
    requires i < MaxBytes(w)
    ensures room >= 2
    decreases MaxBytes(w) - i
  {
    if i == MaxBytes(w) - 1 then LastByteMax(w) + 1 else 0x80 * Room(w, i + 1)
  }

  lemma RoomIsLimit(w: Width)
    ensures Room(w, 0) == Limit(w)
  {
    match w
    case W16 =>
      assert Room(w, 2) == 4;
    case W32 =>
      assert Room(w, 4) == 16;
      assert Room(w, 2) == 0x80 * 0x80 * 16;
    case W64 =>
      assert Room(w, 9) == 2;
      assert Room(w, 7) == 0x80 * 0x80 * 2;
      assert Room(w, 5) == 0x80 * 0x80 * 0x80 * 0x80 * 2;
      assert Room(w, 3) == 0x80 * 0x80 * 0x80 * 0x80 * 0x80 * 0x80 * 2;
      assert Room(w, 1) == 0x80 * 0x80 * 0x80 * 0x80 * 0x80 * 0x80 * 0x80 * 0x80 * 2;
  }

  lemma HighFits(w: Width, i: nat, n: nat)
    requires i < MaxBytes(w) && 0x80 <= n < Room(w, i)
    ensures i + 1 < MaxBytes(w) && n / 0x80 < Room(w, i + 1)
  {
  }

  lemma LowFirst(n: nat, rest: Bytes)
    requires n >= 0x80
    ensures EncodeVarint(n) + rest == [0x80 + n % 0x80] + (EncodeVarint(n / 0x80) + rest)
  {
  }

  lemma DecodeLow(w: Width, i: nat, low: Byte, high: nat, bytes: Bytes, rest: Bytes)
    requires i < MaxBytes(w) && low >= 0x80 && DecodeVarintFrom(w, i + 1, bytes) == Ok((high, rest))
    ensures DecodeVarintFrom(w, i, [low] + bytes) == Ok((low - 0x80 + 0x80 * high, rest))
  {
    assert ([low] + bytes)[1..] == bytes;
  }

  lemma {:induction false} DecodeEncodeVarintFrom(w: Width, i: nat, n: nat, rest: Bytes)
    requires i < MaxBytes(w) && n < Room(w, i)
    ensures DecodeVarintFrom(w, i, EncodeVarint(n) + rest) == Ok((n, rest))
    decreases n
  {
    if n < 0x80 {
      assert (EncodeVarint(n) + rest)[1..] == rest;
    } else {
      HighFits(w, i, n);
      DecodeEncodeVarintFrom(w, i + 1, n / 0x80, rest);
      LowFirst(n, rest);
      DecodeLow(w, i, 0x80 + n % 0x80, n / 0x80, EncodeVarint(n / 0x80) + rest, rest);
    }
  }

  lemma DecodeEncodeVarint(w: Width, n: nat, rest: Bytes)
    requires n < Limit(w)
    ensures DecodeVarint(w, EncodeVarint(n) + rest) == Ok((n, rest))
  {
    RoomIsLimit(w);
    DecodeEncodeVarintFrom(w, 0, n, rest);
  }

  /** The decoder also accepts padded varints, but never one shorter than the encoder's. */
  lemma {:induction false} DecodedVarintFromFits(w: Width, i: nat, bytes: Bytes)
    requires i < MaxBytes(w) && DecodeVarintFrom(w, i, bytes).Ok?
    ensures var (n, rest) := DecodeVarintFrom(w, i, bytes).value;
            n < Room(w, i) && |EncodeVarint(n)| <= |bytes| - |rest|
    decreases MaxBytes(w) - i
  {
    if bytes[0] >= 0x80 {
      DecodedVarintFromFits(w, i + 1, bytes[1..]);
      var (high, rest) := DecodeVarintFrom(w, i + 1, bytes[1..]).value;
      var n := bytes[0] - 0x80 + 0x80 * high;
      assert n >= 0x80 ==> n / 0x80 == high;
    }
  }

  lemma DecodedVarintFits(w: Width, bytes: Bytes)
    requires DecodeVarint(w, bytes).Ok?
    ensures var (n, rest) := DecodeVarint(w, bytes).value;
            n < Limit(w) && |EncodeVarint(n)| <= |bytes| - |rest|
  {
    RoomIsLimit(w);
    DecodedVarintFromFits(w, 0, bytes);
  }

  lemma VarintLength(n: nat)
    ensures n < 0x80 ==> |EncodeVarint(n)| == 1
    ensures n >= 0x80 ==> |EncodeVarint(n)| >= 2
    ensures n >= 0x4000 ==> |EncodeVarint(n)| >= 3
    ensures n < 0x4000 ==> |EncodeVarint(n)| <= 2
    ensures n < 0x20_0000 ==> |EncodeVarint(n)| <= 3
  {
    if n >= 0x80 {
      var m := n / 0x80;
      assert |EncodeVarint(n)| == 1 + |EncodeVarint(m)|;
      if m >= 0x80 {
        assert |EncodeVarint(m)| == 1 + |EncodeVarint(m / 0x80)|;
      }
    }
  }

  // ---------------------------------------------------------------------------
  // Values
  // ---------------------------------------------------------------------------

  function Encode(v: Value): Bytes
    decreases v
  {
    match v
    case Unit => []
    case Num(n) => EncodeVarint(n)
    case Flag(b) => [if b then 1 else 0]
    case Str(s) => EncodeVarint(|Utf8.Encode(s)|) + Utf8.Encode(s)
    case Raw(bytes) => EncodeVarint(|bytes|) + bytes
    case Array(bytes) => bytes
    case Absent => [0]
    case Present(v') => [1] + Encode(v')
    case List(vs) => EncodeVarint(|vs|) + EncodeAll(vs)
    case Pair(a, b) => Encode(a) + Encode(b)
    case Variant(tag, payload) => EncodeVarint(tag) + Encode(payload)
  }

  function EncodeAll(vs: seq<Value>): Bytes
    decreases vs
  {
    if vs == [] then [] else Encode(vs[0]) + EncodeAll(vs[1..])
  }

  /** A lower bound on the encoded size of every value of the type. */
  function MinSize(s: Schema): nat {
    match s
    case UnitOf => 0
    case ByteArray(n) => n
    case PairOf(first, second) => MinSize(first) + MinSize(second)
    case _ => 1
  }

  /** `v` is a value of the type that `s` describes. A tag is a u32; a list is shorter than 2^64,
      which needs saying only when its elements may take no space. */
  predicate Shape(v: Value, s: Schema)
    decreases s, 0, v
  {
    match s
    case UnitOf => v == Unit
    case Varint(w) => v.Num? && v.n < Limit(w)
    case Boolean => v.Flag?
    case Text => v.Str?
    case ByteVec => v.Raw?
    case ByteArray(n) => v.Array? && |v.bytes| == n
    case Optional(some) => v == Absent || (v.Present? && Shape(v.v, some))
    case ListOf(element) => v.List? && (MinSize(element) > 0 || |v.vs| < Limit(W64)) && ShapeAll(v.vs, element)
    case PairOf(first, second) => v.Pair? && Shape(v.first, first) && Shape(v.second, second)
    case Enum(variants) =>
      v.Variant? && v.tag < |variants| && v.tag < Limit(W32) && Shape(v.payload, variants[v.tag])
  }

  predicate ShapeAll(vs: seq<Value>, s: Schema)
    decreases s, 1, vs
  {
    vs == [] || (Shape(vs[0], s) && ShapeAll(vs[1..], s))
  }

  type Decoded = Result<(Value, Bytes), DecodeError>

  /** A length prefix followed by that many bytes. */
  function DecodeCounted(bytes: Bytes): (r: Result<(Bytes, Bytes), DecodeError>)
    ensures r.Ok? ==> |r.value.1| <= |bytes|
  {
    match DecodeVarint(W64, bytes)
    case Err(e) => Err(e)
    case Ok((n, rest)) => if |rest| < n then Err(UnexpectedEnd) else Ok((rest[..n], rest[n..]))
  }

  predicate Leaf(s: Schema) {
    !s.Optional? && !s.ListOf? && !s.PairOf? && !s.Enum?
  }

  function DecodeLeaf(s: Schema, bytes: Bytes): (r: Decoded)
    requires Leaf(s)
    ensures r.Ok? ==> |r.value.1| <= |bytes|
  {
    match s
    case UnitOf => Ok((Unit, bytes))
    case Varint(w) =>
      (match DecodeVarint(w, bytes)
       case Err(e) => Err(e)
       case Ok((n, rest)) => Ok((Num(n), rest)))
    case Boolean =>
      if bytes == [] then Err(UnexpectedEnd)
      else if bytes[0] > 1 then Err(BadBool)
      else Ok((Flag(bytes[0] == 1), bytes[1..]))
    case Text =>
      (match DecodeCounted(bytes)
       case Err(e) => Err(e)
       case Ok((body, rest)) =>
         match Utf8.Decode(body)
         case None => Err(BadUtf8)
         case Some(t) => Ok((Str(t), rest)))
    case ByteVec =>
      (match DecodeCounted(bytes)
       case Err(e) => Err(e)
       case Ok((body, rest)) => Ok((Raw(body), rest)))
    case ByteArray(n) =>
      if |bytes| < n then Err(UnexpectedEnd) else Ok((Array(bytes[..n]), bytes[n..]))
  }

  function Decode(s: Schema, bytes: Bytes): (r: Decoded)
    ensures r.Ok? ==> |r.value.1| <= |bytes|
    decreases s, 1
  {
    match s
    case Optional(some) => DecodeOptional(some, bytes)
    case ListOf(element) => DecodeList(element, bytes)
    case PairOf(first, second) => DecodePair(first, second, bytes)
    case Enum(variants) => DecodeEnum(variants, bytes)
    case _ => DecodeLeaf(s, bytes)
  }

  function DecodeOptional(s: Schema, bytes: Bytes): (r: Decoded)
    ensures r.Ok? ==> |r.value.1| <= |bytes|
    decreases Optional(s), 0
  {
    if bytes == [] then Err(UnexpectedEnd)
    else if bytes[0] == 0 then Ok((Absent, bytes[1..]))
    else if bytes[0] > 1 then Err(BadOption)
    else
      match Decode(s, bytes[1..])
      case Err(e) => Err(e)
      case Ok((v, rest)) => Ok((Present(v), rest))
  }

  function DecodePair(s: Schema, t: Schema, bytes: Bytes): (r: Decoded)
    ensures r.Ok? ==> |r.value.1| <= |bytes|
    decreases PairOf(s, t), 0
  {
    match Decode(s, bytes)
    case Err(e) => Err(e)
    case Ok((a, rest)) =>
      match Decode(t, rest)
      case Err(e) => Err(e)
      case Ok((b, rest')) => Ok((Pair(a, b), rest'))
  }

  function DecodeEnum(variants: seq<Schema>, bytes: Bytes): (r: Decoded)
    ensures r.Ok? ==> |r.value.1| <= |bytes|
    decreases Enum(variants), 0
  {
    match DecodeVarint(W32, bytes)
    case Err(e) => Err(e)
    case Ok((tag, rest)) =>
      if tag >= |variants| then Err(BadVariant)
      else
        match Decode(variants[tag], rest)
        case Err(e) => Err(e)
        case Ok((payload, rest')) => Ok((Variant(tag, payload), rest'))
  }

  function DecodeList(s: Schema, bytes: Bytes): (r: Decoded)
    ensures r.Ok? ==> |r.value.1| <= |bytes|
    decreases ListOf(s), 0
  {
    match DecodeVarint(W64, bytes)
    case Err(e) => Err(e)
    case Ok((n, rest)) =>
      match DecodeMany(s, n, rest)
      case Err(e) => Err(e)
      case Ok((vs, rest')) => Ok((List(vs), rest'))
  }

  function DecodeMany(s: Schema, n: nat, bytes: Bytes): (r: Result<(seq<Value>, Bytes), DecodeError>)
    ensures r.Ok? ==> |r.value.1| <= |bytes|
    decreases s, 2, n
  {
    if n == 0 then Ok(([], bytes))
    else
      match Decode(s, bytes)
      case Err(e) => Err(e)
      case Ok((v, rest)) =>
        match DecodeMany(s, n - 1, rest)
        case Err(e) => Err(e)
        case Ok((vs, rest')) => Ok(([v] + vs, rest'))
  }

  // ---------------------------------------------------------------------------
  // Decoding inverts encoding
  // ---------------------------------------------------------------------------

  lemma DecodeCountedEncoded(body: Bytes, rest: Bytes)
    requires |body| < Limit(W64)
    ensures DecodeCounted(EncodeVarint(|body|) + body + rest) == Ok((body, rest))
  {
    DecodeEncodeVarint(W64, |body|, body + rest);
    assert EncodeVarint(|body|) + body + rest == EncodeVarint(|body|) + (body + rest);
    assert (body + rest)[..|body|] == body && (body + rest)[|body|..] == rest;
  }

  lemma DecodeEncodeLeaf(v: Value, s: Schema, rest: Bytes)
    requires Leaf(s) && Shape(v, s) && |Encode(v)| < Limit(W64)
    ensures DecodeLeaf(s, Encode(v) + rest) == Ok((v, rest))
  {
    match s
    case UnitOf =>
      assert Encode(v) + rest == rest;
    case Varint(w) =>
      DecodeEncodeVarint(w, v.n, rest);
    case Boolean =>
      assert (Encode(v) + rest)[1..] == rest;
    case Text =>
      Utf8.DecodeEncode(v.s);
      DecodeCountedEncoded(Utf8.Encode(v.s), rest);
    case ByteVec =>
      DecodeCountedEncoded(v.bytes, rest);
    case ByteArray(n) =>
      assert (v.bytes + rest)[..n] == v.bytes && (v.bytes + rest)[n..] == rest;
  }

  lemma Regroup(a: Bytes, b: Bytes, c: Bytes)
    ensures a + b + c == a + (b + c)
  {
  }

  lemma DecodePairStep(s: Schema, t: Schema, x: Bytes, a: Value, y: Bytes, b: Value, z: Bytes)
    requires Decode(s, x) == Ok((a, y)) && Decode(t, y) == Ok((b, z))
    ensures DecodePair(s, t, x) == Ok((Pair(a, b), z))
  {
  }

  lemma DecodePresentStep(s: Schema, x: Bytes, a: Value, y: Bytes)
    requires Decode(s, x) == Ok((a, y))
    ensures DecodeOptional(s, [1] + x) == Ok((Present(a), y))
  {
    assert ([1] + x)[1..] == x;
  }

  lemma DecodeVariantStep(variants: seq<Schema>, tag: nat, x: Bytes, a: Value, y: Bytes)
    requires tag < |variants| && tag < Limit(W32) && Decode(variants[tag], x) == Ok((a, y))
    ensures DecodeEnum(variants, EncodeVarint(tag) + x) == Ok((Variant(tag, a), y))
  {
    DecodeEncodeVarint(W32, tag, x);
  }

  lemma DecodeListStep(s: Schema, n: nat, x: Bytes, vs: seq<Value>, y: Bytes)
    requires n < Limit(W64) && DecodeMany(s, n, x) == Ok((vs, y))
    ensures DecodeList(s, EncodeVarint(n) + x) == Ok((List(vs), y))
  {
    DecodeEncodeVarint(W64, n, x);
  }

  lemma DecodeConsStep(s: Schema, n: nat, x: Bytes, a: Value, y: Bytes, vs: seq<Value>, z: Bytes)
    requires Decode(s, x) == Ok((a, y)) && DecodeMany(s, n, y) == Ok((vs, z))
    ensures DecodeMany(s, n + 1, x) == Ok(([a] + vs, z))
  {
  }

  /** Any value whose encoding fits in the address space comes back, whatever follows it. */
  lemma {:induction false} DecodeEncode(v: Value, s: Schema, rest: Bytes)
    requires Shape(v, s) && |Encode(v)| < Limit(W64)
    ensures Decode(s, Encode(v) + rest) == Ok((v, rest))
    decreases s, 1
  {
    if s.Optional? {
      DecodeEncodeOptional(v, s.some, rest);
    } else if s.ListOf? {
      DecodeEncodeList(v, s.element, rest);
    } else if s.PairOf? {
      DecodeEncodePair(v, s.first, s.second, rest);
    } else if s.Enum? {
      DecodeEncodeVariant(v, s.variants, rest);
    } else {
      DecodeEncodeLeaf(v, s, rest);
    }
  }

  lemma {:induction false} DecodeEncodeOptional(v: Value, s: Schema, rest: Bytes)
    requires Shape(v, Optional(s)) && |Encode(v)| < Limit(W64)
    ensures DecodeOptional(s, Encode(v) + rest) == Ok((v, rest))
    decreases Optional(s), 0
  {
    if v.Present? {
      DecodeEncode(v.v, s, rest);
      DecodePresentStep(s, Encode(v.v) + rest, v.v, rest);
      Regroup([1], Encode(v.v), rest);
    } else {
      assert (Encode(v) + rest)[1..] == rest;
    }
  }

  lemma {:induction false} DecodeEncodePair(v: Value, s: Schema, t: Schema, rest: Bytes)
    requires Shape(v, PairOf(s, t)) && |Encode(v)| < Limit(W64)
    ensures DecodePair(s, t, Encode(v) + rest) == Ok((v, rest))
    decreases PairOf(s, t), 0
  {
    var (a, b) := (v.first, v.second);
    var tail := Encode(b) + rest;
    DecodeEncode(a, s, tail);
    DecodeEncode(b, t, rest);
    DecodePairStep(s, t, Encode(a) + tail, a, tail, b, rest);
    Regroup(Encode(a), Encode(b), rest);
  }

  lemma {:induction false} DecodeEncodeVariant(v: Value, variants: seq<Schema>, rest: Bytes)
    requires Shape(v, Enum(variants)) && |Encode(v)| < Limit(W64)
    ensures DecodeEnum(variants, Encode(v) + rest) == Ok((v, rest))
    decreases Enum(variants), 0
  {
    DecodeEncode(v.payload, variants[v.tag], rest);
    DecodeVariantStep(variants, v.tag, Encode(v.payload) + rest, v.payload, rest);
    Regroup(EncodeVarint(v.tag), Encode(v.payload), rest);
  }

  lemma {:induction false} DecodeEncodeList(v: Value, s: Schema, rest: Bytes)
    requires Shape(v, ListOf(s)) && |Encode(v)| < Limit(W64)
    ensures DecodeList(s, Encode(v) + rest) == Ok((v, rest))
    decreases ListOf(s), 0
  {
    if MinSize(s) > 0 {
      ListLength(v.vs, s);
    }
    DecodeManyEncodeAll(v.vs, s, rest);
    DecodeListStep(s, |v.vs|, EncodeAll(v.vs) + rest, v.vs, rest);
    Regroup(EncodeVarint(|v.vs|), EncodeAll(v.vs), rest);
  }

  lemma {:induction false} DecodeManyEncodeAll(vs: seq<Value>, s: Schema, rest: Bytes)
    requires ShapeAll(vs, s) && |EncodeAll(vs)| < Limit(W64)
    ensures DecodeMany(s, |vs|, EncodeAll(vs) + rest) == Ok((vs, rest))
    decreases s, 2, vs
  {
    if vs == [] {
      assert EncodeAll(vs) + rest == rest;
    } else {
      var tail := EncodeAll(vs[1..]) + rest;
      DecodeEncode(vs[0], s, tail);
      DecodeManyEncodeAll(vs[1..], s, rest);
      DecodeConsStep(s, |vs| - 1, Encode(vs[0]) + tail, vs[0], tail, vs[1..], rest);
      Regroup(Encode(vs[0]), EncodeAll(vs[1..]), rest);
      assert vs == [vs[0]] + vs[1..];
    }
  }

  lemma {:induction false} EncodedMinSize(v: Value, s: Schema)
    requires Shape(v, s)
    ensures |Encode(v)| >= MinSize(s)
    decreases s
  {
    if s.PairOf? {
      EncodedMinSize(v.first, s.first);
      EncodedMinSize(v.second, s.second);
    }
  }

  lemma {:induction false} ListLength(vs: seq<Value>, s: Schema)
    requires ShapeAll(vs, s) && MinSize(s) > 0
    ensures |vs| <= |EncodeAll(vs)|
  {
    if vs != [] {
      EncodedMinSize(vs[0], s);
      ListLength(vs[1..], s);
    }
  }

  // ---------------------------------------------------------------------------
  // Whatever decodes is well typed, and its own encoding is no longer than what was read
  // ---------------------------------------------------------------------------

  lemma DecodedLeafFits(s: Schema, bytes: Bytes)
    requires Leaf(s) && DecodeLeaf(s, bytes).Ok?
    ensures var (v, rest) := DecodeLeaf(s, bytes).value;
            Shape(v, s) && |Encode(v)| <= |bytes| - |rest|
  {
    match s
    case Varint(w) => DecodedVarintFits(w, bytes);
    case Text =>
      DecodedVarintFits(W64, bytes);
      Utf8.EncodeDecode(DecodeCounted(bytes).value.0);
    case ByteVec => DecodedVarintFits(W64, bytes);
    case _ =>
  }

  ghost predicate Fits(r: Decoded, s: Schema, bytes: Bytes) {
    r.Ok? ==> Shape(r.value.0, s) && |Encode(r.value.0)| <= |bytes| - |r.value.1|
  }

  lemma {:induction false} DecodedFits(s: Schema, bytes: Bytes)
    ensures Fits(Decode(s, bytes), s, bytes)
    decreases s, 0
  {
    if Decode(s, bytes).Ok? {
      match s
      case Optional(some) =>
        assert DecodeOptional(some, bytes).Ok?;
        if bytes[0] == 1 {
          DecodedFits(some, bytes[1..]);
        }
      case ListOf(element) =>
        assert DecodeList(element, bytes).Ok?;
        DecodedVarintFits(W64, bytes);
        var (n, rest) := DecodeVarint(W64, bytes).value;
        DecodedManyFit(element, n, rest);
      case PairOf(first, second) =>
        assert DecodePair(first, second, bytes).Ok?;
        DecodedFits(first, bytes);
        DecodedFits(second, Decode(first, bytes).value.1);
      case Enum(variants) =>
        assert DecodeEnum(variants, bytes).Ok?;
        DecodedVarintFits(W32, bytes);
        var (tag, rest) := DecodeVarint(W32, bytes).value;
        DecodedFits(variants[tag], rest);
      case _ =>
        DecodedLeafFits(s, bytes);
    }
  }

  lemma ConsFits(v: Value, vs: seq<Value>, s: Schema)
    requires Shape(v, s) && ShapeAll(vs, s)
    ensures ShapeAll([v] + vs, s) && EncodeAll([v] + vs) == Encode(v) + EncodeAll(vs)
  {
    assert ([v] + vs)[1..] == vs;
  }

  lemma DecodeManyParts(s: Schema, n: nat, bytes: Bytes)
    requires n > 0 && DecodeMany(s, n, bytes).Ok?
    ensures Decode(s, bytes).Ok? && DecodeMany(s, n - 1, Decode(s, bytes).value.1).Ok?
    ensures var (v, y) := Decode(s, bytes).value;
            var (vs, z) := DecodeMany(s, n - 1, y).value;
            DecodeMany(s, n, bytes).value == ([v] + vs, z)
  {
  }

  lemma {:induction false} DecodedManyFit(s: Schema, n: nat, bytes: Bytes)
    requires DecodeMany(s, n, bytes).Ok?
    ensures var (vs, rest) := DecodeMany(s, n, bytes).value;
            |vs| == n && ShapeAll(vs, s) && |EncodeAll(vs)| <= |bytes| - |rest|
    decreases s, 1, n
  {
    if n > 0 {
      DecodeManyParts(s, n, bytes);
      var (v, y) := Decode(s, bytes).value;
      DecodedFits(s, bytes);
      DecodedManyFit(s, n - 1, y);
      ConsFits(v, DecodeMany(s, n - 1, y).value.0, s);
    }
  }

  // ---------------------------------------------------------------------------
  // When decoding and encoding again gives back what was read
  // ---------------------------------------------------------------------------

  /** The bytes a varint took. */
  function Taken(bytes: Bytes, rest: Bytes): Bytes
    requires |rest| <= |bytes|
  {
    bytes[..|bytes| - |rest|]
  }

  /** Padded: more than one byte, of which the last carries nothing. */
  predicate Padded(taken: Bytes) {
    |taken| > 1 && taken[|taken| - 1] == 0
  }

  ghost predicate ReadAs(n: nat, taken: Bytes) {
    && (EncodeVarint(n) == taken <==> !Padded(taken))
    && (if |taken| == 1 then taken == [n] else n == 0 ==> Padded(taken))
  }

  /** One more low byte in front. */
  lemma LowByte(low: Byte, high: nat, tail: Bytes)
    requires low >= 0x80 && tail != [] && ReadAs(high, tail)
    ensures ReadAs(low - 0x80 + 0x80 * high, [low] + tail)
  {
    var n := low - 0x80 + 0x80 * high;
    if high == 0 {
      assert EncodeVarint(n) == [n];
    } else {
      assert n / 0x80 == high && n % 0x80 == low - 0x80;
      assert EncodeVarint(n) == [low] + EncodeVarint(high);
      assert ([low] + tail)[1..] == tail && ([low] + EncodeVarint(high))[1..] == EncodeVarint(high);
    }
  }

  lemma TakenFirst(bytes: Bytes, rest: Bytes)
    requires |rest| < |bytes|
    ensures Taken(bytes, rest) == [bytes[0]] + Taken(bytes[1..], rest)
  {
  }

  lemma {:induction false} VarintFromExactly(w: Width, i: nat, bytes: Bytes)
    requires i < MaxBytes(w) && DecodeVarintFrom(w, i, bytes).Ok?
    ensures var (n, rest) := DecodeVarintFrom(w, i, bytes).value;
            ReadAs(n, Taken(bytes, rest))
    decreases MaxBytes(w) - i
  {
    var (n, rest) := DecodeVarintFrom(w, i, bytes).value;
    if bytes[0] < 0x80 {
      assert Taken(bytes, rest) == [bytes[0]];
    } else {
      VarintFromExactly(w, i + 1, bytes[1..]);
      var (high, _) := DecodeVarintFrom(w, i + 1, bytes[1..]).value;
      TakenFirst(bytes, rest);
      LowByte(bytes[0], high, Taken(bytes[1..], rest));
    }
  }

  /** A varint is encoded again as it was read exactly when it was not padded. */
  lemma VarintExactly(w: Width, bytes: Bytes)
    requires DecodeVarint(w, bytes).Ok?
    ensures var (n, rest) := DecodeVarint(w, bytes).value;
            EncodeVarint(n) == Taken(bytes, rest) <==> !Padded(Taken(bytes, rest))
  {
    VarintFromExactly(w, 0, bytes);
  }

  lemma VarintKept(w: Width, bytes: Bytes)
    requires DecodeVarint(w, bytes).Ok?
    ensures var (n, rest) := DecodeVarint(w, bytes).value;
            EncodeVarint(n) + rest == bytes <==> UnpaddedVarint(w, bytes)
  {
    VarintExactly(w, bytes);
    var (n, rest) := DecodeVarint(w, bytes).value;
    assert bytes == Taken(bytes, rest) + rest;
    if EncodeVarint(n) + rest == bytes {
      assert EncodeVarint(n) == (EncodeVarint(n) + rest)[..|bytes| - |rest|];
    }
  }

  /** No varint among those that decoding reads is padded. */
  predicate Unpadded(s: Schema, bytes: Bytes)
    decreases s, 1
  {
    match s
    case Varint(w) => UnpaddedVarint(w, bytes)
    case Text => UnpaddedVarint(W64, bytes)
    case ByteVec => UnpaddedVarint(W64, bytes)
    case Optional(some) => bytes != [] && bytes[0] == 1 ==> Unpadded(some, bytes[1..])
    case ListOf(element) => UnpaddedList(element, bytes)
    case PairOf(first, second) => UnpaddedPair(first, second, bytes)
    case Enum(variants) => UnpaddedEnum(variants, bytes)
    case _ => true
  }

  predicate UnpaddedVarint(w: Width, bytes: Bytes) {
    match DecodeVarint(w, bytes)
    case Ok((_, rest)) => !Padded(Taken(bytes, rest))
    case Err(_) => true
  }

  predicate UnpaddedList(s: Schema, bytes: Bytes)
    decreases ListOf(s), 0
  {
    match DecodeVarint(W64, bytes)
    case Ok((n, rest)) => UnpaddedVarint(W64, bytes) && UnpaddedMany(s, n, rest)
    case Err(_) => true
  }

  predicate UnpaddedPair(s: Schema, t: Schema, bytes: Bytes)
    decreases PairOf(s, t), 0
  {
    match Decode(s, bytes)
    case Ok((_, rest)) => Unpadded(s, bytes) && Unpadded(t, rest)
    case Err(_) => true
  }

  predicate UnpaddedEnum(variants: seq<Schema>, bytes: Bytes)
    decreases Enum(variants), 0
  {
    match DecodeVarint(W32, bytes)
    case Ok((tag, rest)) => UnpaddedVarint(W32, bytes) && (tag < |variants| ==> Unpadded(variants[tag], rest))
    case Err(_) => true
  }

  predicate UnpaddedMany(s: Schema, n: nat, bytes: Bytes)
    decreases s, 2, n
  {
    n == 0 ||
    match Decode(s, bytes)
    case Ok((_, rest)) => Unpadded(s, bytes) && UnpaddedMany(s, n - 1, rest)
    case Err(_) => true
  }

  /** Two parts in a row are kept exactly when each is. */
  lemma KeptInRow(bytes: Bytes, middle: Bytes, rest: Bytes, first: Bytes, second: Bytes, a: bool, b: bool)
    requires first + middle == bytes <==> a
    requires second + rest == middle <==> b
    requires first + (second + rest) == bytes ==> middle == second + rest
    ensures first + second + rest == bytes <==> a && b
  {
    Regroup(first, second, rest);
  }

  lemma CountedExactly(bytes: Bytes)
    requires DecodeCounted(bytes).Ok?
    ensures var (body, rest) := DecodeCounted(bytes).value;
            EncodeVarint(|body|) + body + rest == bytes <==> UnpaddedVarint(W64, bytes)
  {
    var (body, rest) := DecodeCounted(bytes).value;
    VarintKept(W64, bytes);
    Regroup(EncodeVarint(|body|), body, rest);
    assert body + rest == DecodeVarint(W64, bytes).value.1;
  }

  lemma TextExactly(bytes: Bytes)
    requires DecodeLeaf(Text, bytes).Ok?
    ensures var (v, rest) := DecodeLeaf(Text, bytes).value;
            Encode(v) + rest == bytes <==> UnpaddedVarint(W64, bytes)
  {
    CountedExactly(bytes);
    Utf8.EncodeDecode(DecodeCounted(bytes).value.0);
  }

  /** Encoding `v` again gives back what was read before `rest`, unless some of it was padded. */
  ghost predicate Kept(v: Value, rest: Bytes, s: Schema, bytes: Bytes) {
    Encode(v) + rest == bytes <==> Unpadded(s, bytes)
  }

  ghost predicate ManyKept(vs: seq<Value>, rest: Bytes, s: Schema, n: nat, bytes: Bytes) {
    EncodeAll(vs) + rest == bytes <==> UnpaddedMany(s, n, bytes)
  }

  lemma LeafExactly(s: Schema, bytes: Bytes)
    requires Leaf(s) && DecodeLeaf(s, bytes).Ok?
    ensures Kept(DecodeLeaf(s, bytes).value.0, DecodeLeaf(s, bytes).value.1, s, bytes)
  {
    match s
    case UnitOf => assert [] + bytes == bytes;
    case Varint(w) => VarintKept(w, bytes);
    case Text => TextExactly(bytes);
    case ByteVec => CountedExactly(bytes);
    case _ =>
  }

  lemma OptionalExactly(s: Schema, bytes: Bytes, v: Value, rest: Bytes)
    requires bytes != [] && bytes[0] == 1 && Kept(v, rest, s, bytes[1..])
    ensures Kept(Present(v), rest, Optional(s), bytes)
  {
    assert bytes == [bytes[0]] + bytes[1..];
    Regroup([1], Encode(v), rest);
  }

  lemma Conclude(v: Value, rest: Bytes, s: Schema, bytes: Bytes, encoding: Bytes, unpadded: bool)
    requires Encode(v) == encoding && Unpadded(s, bytes) == unpadded && (encoding + rest == bytes <==> unpadded)
    ensures Kept(v, rest, s, bytes)
  {
  }

  lemma PairUnpadded(s: Schema, t: Schema, bytes: Bytes, middle: Bytes)
    requires Decode(s, bytes).Ok? && Decode(s, bytes).value.1 == middle
    ensures Unpadded(PairOf(s, t), bytes) <==> Unpadded(s, bytes) && Unpadded(t, middle)
  {
    assert Unpadded(PairOf(s, t), bytes) == UnpaddedPair(s, t, bytes);
  }

  lemma PairExactly(s: Schema, t: Schema, bytes: Bytes, a: Value, middle: Bytes, b: Value, rest: Bytes)
    requires Unpadded(PairOf(s, t), bytes) <==> Unpadded(s, bytes) && Unpadded(t, middle)
    requires Kept(a, middle, s, bytes) && Kept(b, rest, t, middle)
    requires Encode(a) + (Encode(b) + rest) == bytes ==> middle == Encode(b) + rest
    ensures Kept(Pair(a, b), rest, PairOf(s, t), bytes)
  {
    var p, q := Unpadded(s, bytes), Unpadded(t, middle);
    KeptInRow(bytes, middle, rest, Encode(a), Encode(b), p, q);
    Conclude(Pair(a, b), rest, PairOf(s, t), bytes, Encode(a) + Encode(b), p && q);
  }

  lemma EnumUnpadded(variants: seq<Schema>, bytes: Bytes, tag: nat, middle: Bytes)
    requires DecodeVarint(W32, bytes) == Ok((tag, middle)) && tag < |variants|
    ensures Unpadded(Enum(variants), bytes) <==> UnpaddedVarint(W32, bytes) && Unpadded(variants[tag], middle)
  {
    assert Unpadded(Enum(variants), bytes) == UnpaddedEnum(variants, bytes);
  }

  lemma EnumExactly(variants: seq<Schema>, bytes: Bytes, tag: nat, middle: Bytes, payload: Value, rest: Bytes)
    requires DecodeVarint(W32, bytes) == Ok((tag, middle)) && tag < |variants|
    requires Kept(payload, rest, variants[tag], middle)
    ensures Kept(Variant(tag, payload), rest, Enum(variants), bytes)
  {
    VarintInFront(W32, bytes, Encode(payload) + rest);
    var p, q := UnpaddedVarint(W32, bytes), Unpadded(variants[tag], middle);
    KeptInRow(bytes, middle, rest, EncodeVarint(tag), Encode(payload), p, q);
    EnumUnpadded(variants, bytes, tag, middle);
    Conclude(Variant(tag, payload), rest, Enum(variants), bytes, EncodeVarint(tag) + Encode(payload), p && q);
  }

  lemma ListUnpadded(s: Schema, bytes: Bytes, n: nat, middle: Bytes)
    requires DecodeVarint(W64, bytes) == Ok((n, middle))
    ensures Unpadded(ListOf(s), bytes) <==> UnpaddedVarint(W64, bytes) && UnpaddedMany(s, n, middle)
  {
    assert Unpadded(ListOf(s), bytes) == UnpaddedList(s, bytes);
  }

  lemma ListExactly(s: Schema, bytes: Bytes, middle: Bytes, vs: seq<Value>, rest: Bytes)
    requires DecodeVarint(W64, bytes) == Ok((|vs|, middle)) && ManyKept(vs, rest, s, |vs|, middle)
    ensures Kept(List(vs), rest, ListOf(s), bytes)
  {
    VarintInFront(W64, bytes, EncodeAll(vs) + rest);
    var p, q := UnpaddedVarint(W64, bytes), UnpaddedMany(s, |vs|, middle);
    KeptInRow(bytes, middle, rest, EncodeVarint(|vs|), EncodeAll(vs), p, q);
    ListUnpadded(s, bytes, |vs|, middle);
    Conclude(List(vs), rest, ListOf(s), bytes, EncodeVarint(|vs|) + EncodeAll(vs), p && q);
  }

  lemma ConsExactly(s: Schema, bytes: Bytes, v: Value, middle: Bytes, vs: seq<Value>, rest: Bytes)
    requires Decode(s, bytes) == Ok((v, middle)) && Kept(v, middle, s, bytes)
    requires ManyKept(vs, rest, s, |vs|, middle)
    requires Encode(v) + (EncodeAll(vs) + rest) == bytes ==> middle == EncodeAll(vs) + rest
    ensures ManyKept([v] + vs, rest, s, |vs| + 1, bytes)
  {
    KeptInRow(bytes, middle, rest, Encode(v), EncodeAll(vs), Unpadded(s, bytes), UnpaddedMany(s, |vs|, middle));
    assert ([v] + vs)[1..] == vs;
    assert EncodeAll([v] + vs) == Encode(v) + EncodeAll(vs);
    assert UnpaddedMany(s, |vs| + 1, bytes) <==> Unpadded(s, bytes) && UnpaddedMany(s, |vs|, middle);
  }

  /** Encoding again gives back what was read exactly when none of it was padded. */
  lemma {:induction false} DecodedExactly(s: Schema, bytes: Bytes)
    requires Decode(s, bytes).Ok? && |bytes| < Limit(W64)
    ensures Kept(Decode(s, bytes).value.0, Decode(s, bytes).value.1, s, bytes)
    decreases s, 0
  {
    match s
    case Optional(some) =>
      assert DecodeOptional(some, bytes).Ok?;
      if bytes[0] == 1 {
        DecodedExactly(some, bytes[1..]);
        OptionalExactly(some, bytes, Decode(some, bytes[1..]).value.0, Decode(some, bytes[1..]).value.1);
      }
    case ListOf(element) =>
      assert DecodeList(element, bytes).Ok?;
      var (n, middle) := DecodeVarint(W64, bytes).value;
      DecodedManyExactly(element, n, middle);
      DecodedManyFit(element, n, middle);
      var (vs, rest) := DecodeMany(element, n, middle).value;
      ListExactly(element, bytes, middle, vs, rest);
    case PairOf(first, second) =>
      assert DecodePair(first, second, bytes).Ok?;
      var (a, middle) := Decode(first, bytes).value;
      var (b, rest) := Decode(second, middle).value;
      DecodedExactly(first, bytes);
      DecodedExactly(second, middle);
      FirstKept(first, bytes, Encode(b) + rest);
      PairUnpadded(first, second, bytes, middle);
      PairExactly(first, second, bytes, a, middle, b, rest);
    case Enum(variants) =>
      assert DecodeEnum(variants, bytes).Ok?;
      var (tag, middle) := DecodeVarint(W32, bytes).value;
      DecodedExactly(variants[tag], middle);
      var (payload, rest) := Decode(variants[tag], middle).value;
      EnumExactly(variants, bytes, tag, middle, payload, rest);
    case _ =>
      LeafExactly(s, bytes);
  }

  lemma VarintInFront(w: Width, bytes: Bytes, tail: Bytes)
    requires DecodeVarint(w, bytes).Ok?
    ensures var (n, rest) := DecodeVarint(w, bytes).value;
            && (EncodeVarint(n) + rest == bytes <==> UnpaddedVarint(w, bytes))
            && (EncodeVarint(n) + tail == bytes ==> rest == tail)
  {
    VarintKept(w, bytes);
    DecodedVarintFits(w, bytes);
    var n := DecodeVarint(w, bytes).value.0;
    if EncodeVarint(n) + tail == bytes {
      DecodeEncodeVarint(w, n, tail);
    }
  }

  /** Where the encoding of a first part stands in front, decoding ends behind it. */
  lemma FirstKept(s: Schema, bytes: Bytes, tail: Bytes)
    requires Decode(s, bytes).Ok? && |bytes| < Limit(W64)
    ensures Encode(Decode(s, bytes).value.0) + tail == bytes ==> Decode(s, bytes).value.1 == tail
  {
    DecodedFits(s, bytes);
    if Encode(Decode(s, bytes).value.0) + tail == bytes {
      DecodeEncode(Decode(s, bytes).value.0, s, tail);
    }
  }

  lemma {:induction false} DecodedManyExactly(s: Schema, n: nat, bytes: Bytes)
    requires DecodeMany(s, n, bytes).Ok? && |bytes| < Limit(W64)
    ensures ManyKept(DecodeMany(s, n, bytes).value.0, DecodeMany(s, n, bytes).value.1, s, n, bytes)
    decreases s, 1, n
  {
    if n == 0 {
      assert [] + bytes == bytes;
    } else {
      DecodeManyParts(s, n, bytes);
      var (v, middle) := Decode(s, bytes).value;
      var (vs, rest) := DecodeMany(s, n - 1, middle).value;
      DecodedExactly(s, bytes);
      DecodedManyExactly(s, n - 1, middle);
      DecodedManyFit(s, n - 1, middle);
      FirstKept(s, bytes, EncodeAll(vs) + rest);
      ConsExactly(s, bytes, v, middle, vs, rest);
    }
  }

  /** The converse of `DecodeEncode` fails: padded varints decode too. */
  lemma DecodeIsNotInjective()
    ensures DecodeVarint(W16, [0x80, 0]) == Ok((0, [])) == DecodeVarint(W16, [0])
  {
    assert DecodeVarintFrom(W16, 1, [0]) == Ok((0, []));
  }
}
