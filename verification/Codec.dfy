/** Length-prefixed frames over byte streams, for any of the four message types. */
module Codec {
  import opened Wrappers
  import opened Postcard
  import opened Messages
  import Utf8

  /** Readers refuse longer payloads; writers do not check. */
  const MAX_FRAME_SIZE: U32 := 0x1_0000

  datatype CodecError =
    | Io
    | MessageTooLarge
    | FrameTooLarge(len: U32)
    | Deserialize(error: DecodeError)

  // ---------------------------------------------------------------------------
  // Message types
  // ---------------------------------------------------------------------------

  datatype Protocol<!T> = Protocol(schema: Schema, toValue: T -> Value, fromValue: Value -> Option<T>)

  const CONTROL: Protocol<ControlMessage> := Protocol(ControlSchema, ControlValue, ControlMessageOf)
  const CHANNEL: Protocol<ChannelMessage> := Protocol(ChannelSchema, ChannelValue, ChannelMessageOf)
  const CLIENT: Protocol<ClientMessage> := Protocol(ClientSchema, ClientValue, ClientMessageOf)
  const MASTER: Protocol<MasterMessage> := Protocol(MasterSchema, MasterValue, MasterMessageOf)

  /** Messages and the values of the schema are the same thing. */
  ghost predicate Faithful<T(!new)>(p: Protocol<T>) {
    && (forall m: T :: Shape(p.toValue(m), p.schema) && p.fromValue(p.toValue(m)) == Some(m))
    && (forall v :: Shape(v, p.schema) ==> p.fromValue(v).Some? && p.toValue(p.fromValue(v).value) == v)
  }

  lemma ControlFaithful()
    ensures Faithful(CONTROL)
  {
    forall m: ControlMessage
      ensures Shape(ControlValue(m), ControlSchema) && ControlMessageOf(ControlValue(m)) == Some(m)
    {
      ControlValueShape(m);
      ControlMessageRecovered(m);
    }
    forall v | Shape(v, ControlSchema)
      ensures ControlMessageOf(v).Some? && ControlValue(ControlMessageOf(v).value) == v
    {
      ControlTotal(v);
    }
  }

  lemma ChannelFaithful()
    ensures Faithful(CHANNEL)
  {
    forall m: ChannelMessage
      ensures Shape(ChannelValue(m), ChannelSchema) && ChannelMessageOf(ChannelValue(m)) == Some(m)
    {
      ChannelValueShape(m);
      ChannelMessageRecovered(m);
    }
    forall v | Shape(v, ChannelSchema)
      ensures ChannelMessageOf(v).Some? && ChannelValue(ChannelMessageOf(v).value) == v
    {
      ChannelTotal(v);
    }
  }

  lemma ClientFaithful()
    ensures Faithful(CLIENT)
  {
    forall m: ClientMessage
      ensures Shape(ClientValue(m), ClientSchema) && ClientMessageOf(ClientValue(m)) == Some(m)
    {
      ClientValueShape(m);
    }
    forall v | Shape(v, ClientSchema)
      ensures ClientMessageOf(v).Some? && ClientValue(ClientMessageOf(v).value) == v
    {
      ClientTotal(v);
    }
  }

  lemma MasterFaithful()
    ensures Faithful(MASTER)
  {
    forall m: MasterMessage
      ensures Shape(MasterValue(m), MasterSchema) && MasterMessageOf(MasterValue(m)) == Some(m)
    {
      MasterValueShape(m);
    }
    forall v | Shape(v, MasterSchema)
      ensures MasterMessageOf(v).Some? && MasterValue(MasterMessageOf(v).value) == v
    {
      MasterTotal(v);
    }
  }

  function Payload<T>(p: Protocol<T>, m: T): Bytes {
    Encode(p.toValue(m))
  }

  /** `postcard::from_bytes`: bytes after the value are ignored. `FromBytesIsDecode` shows that the
      second failure never happens. */
  function FromBytes<T>(p: Protocol<T>, payload: Bytes): Result<T, DecodeError> {
    match Decode(p.schema, payload)
    case Err(e) => Err(e)
    case Ok((v, _)) =>
      match p.fromValue(v)
      case None => Err(BadVariant)
      case Some(m) => Ok(m)
  }

  // ---------------------------------------------------------------------------
  // Frames
  // ---------------------------------------------------------------------------

  function LittleEndian32(n: U32): (bytes: Bytes)
    ensures |bytes| == 4
  {
    [n % 0x100, n / 0x100 % 0x100, n / 0x1_0000 % 0x100, n / 0x100_0000]
  }

  function Number4(a: int, b: int, c: int, d: int): int {
    a + 0x100 * b + 0x1_0000 * c + 0x100_0000 * d
  }

  function FromLittleEndian32(bytes: Bytes): U32
    requires |bytes| == 4
  {
    Number4(bytes[0], bytes[1], bytes[2], bytes[3])
  }

  lemma LittleEndianRoundTrip(n: U32)
    ensures FromLittleEndian32(LittleEndian32(n)) == n
  {
    assert n / 0x1_0000 == n / 0x100 / 0x100;
    assert n / 0x100_0000 == n / 0x1_0000 / 0x100;
  }

  function Frame(payload: Bytes): Bytes
    requires |payload| < 0x1_0000_0000
  {
    LittleEndian32(|payload|) + payload
  }

  /** What one read takes from the front of `input`, and what it leaves. A read that meets the end
      of the stream has consumed everything that was there. */
  function ReadFrame<T>(p: Protocol<T>, input: Bytes): (Result<T, CodecError>, Bytes) {
    if |input| < 4 then (Err(Io), [])
    else
      var len := FromLittleEndian32(input[..4]);
      if len > MAX_FRAME_SIZE then (Err(FrameTooLarge(len)), input[4..])
      else if |input| - 4 < len then (Err(Io), [])
      else
        match FromBytes(p, input[4..4 + len])
        case Err(e) => (Err(Deserialize(e)), input[4 + len..])
        case Ok(m) => (Ok(m), input[4 + len..])
  }

  /** The bytes of a stream that a writer has written to, or may still be writing to. */
  class ByteSink {
    var written: Bytes

    constructor ()
      ensures written == []
    {
      written := [];
    }

    /** Either everything is written, or the transport fails after some prefix. */
    method WriteAll(bytes: Bytes) returns (ok: bool)
      modifies this
      ensures ok ==> written == old(written) + bytes
      ensures !ok ==> exists k :: 0 <= k <= |bytes| && written == old(written) + bytes[..k]
    {
      if * {
        ok := true;
        written := written + bytes;
      } else {
        ok := false;
        var k: nat :| k <= |bytes|;
        written := written + bytes[..k];
      }
    }
  }

  /** The bytes a reader will still receive before the end of its stream. */
  class ByteSource {
    var pending: Bytes

    constructor (bytes: Bytes)
      ensures pending == bytes
    {
      pending := bytes;
    }

    method ReadExact(n: nat) returns (r: Result<Bytes, CodecError>)
      modifies this
      ensures n <= |old(pending)| ==> r == Ok(old(pending)[..n]) && pending == old(pending)[n..]
      ensures n > |old(pending)| ==> r == Err(Io) && pending == []
    {
      if n <= |pending| {
        r := Ok(pending[..n]);
        pending := pending[n..];
      } else {
        r := Err(Io);
        pending := [];
      }
    }
  }

  method WriteMessage<T>(writer: ByteSink, p: Protocol<T>, m: T) returns (r: Result<(), CodecError>)
    modifies writer
    ensures r.Err? && r.error == MessageTooLarge <==> |Payload(p, m)| >= 0x1_0000_0000
    ensures |Payload(p, m)| >= 0x1_0000_0000 ==> writer.written == old(writer.written)
    ensures r.Ok? ==> |Payload(p, m)| < 0x1_0000_0000 && writer.written == old(writer.written) + Frame(Payload(p, m))
    ensures r == Err(Io) ==>
              |Payload(p, m)| < 0x1_0000_0000 &&
              exists k :: 0 <= k <= |Frame(Payload(p, m))| &&
                          writer.written == old(writer.written) + Frame(Payload(p, m))[..k]
    ensures r.Err? ==> r.error in {MessageTooLarge, Io}
  {
    var payload := Encode(p.toValue(m));
    if |payload| >= 0x1_0000_0000 {
      return Err(MessageTooLarge);
    }
    ghost var before := writer.written;
    var header := LittleEndian32(|payload|);
    var ok := writer.WriteAll(header);
    if !ok {
      ghost var k :| 0 <= k <= |header| && writer.written == before + header[..k];
      assert Frame(payload)[..k] == header[..k];
      return Err(Io);
    }
    ok := writer.WriteAll(payload);
    if !ok {
      ghost var k :| 0 <= k <= |payload| && writer.written == before + header + payload[..k];
      assert Frame(payload)[..4 + k] == header + payload[..k];
      return Err(Io);
    }
    return Ok(());
  }

  method ReadMessage<T>(reader: ByteSource, p: Protocol<T>) returns (r: Result<T, CodecError>)
    modifies reader
    ensures (r, reader.pending) == ReadFrame(p, old(reader.pending))
  {
    ghost var input := reader.pending;
    var header := reader.ReadExact(4);
    if header.Err? {
      return Err(header.error);
    }
    var len := FromLittleEndian32(header.value);
    if len > MAX_FRAME_SIZE {
      return Err(FrameTooLarge(len));
    }
    var body := reader.ReadExact(len);
    if body.Err? {
      return Err(body.error);
    }
    assert body.value == input[4..4 + len];
    var decoded := FromBytes(p, body.value);
    match decoded
    case Err(e) => r := Err(Deserialize(e));
    case Ok(m) => r := Ok(m);
  }

  // ---------------------------------------------------------------------------
  // One frame
  // ---------------------------------------------------------------------------

  lemma FromBytesPayload<T(!new)>(p: Protocol<T>, m: T)
    requires Faithful(p) && |Payload(p, m)| < 0x1_0000_0000
    ensures FromBytes(p, Payload(p, m)) == Ok(m)
  {
    DecodeEncode(p.toValue(m), p.schema, []);
    assert Payload(p, m) + [] == Payload(p, m);
  }

  lemma FromBytesIsDecode<T(!new)>(p: Protocol<T>, payload: Bytes)
    requires Faithful(p)
    ensures FromBytes(p, payload).Ok? <==> Decode(p.schema, payload).Ok?
    ensures FromBytes(p, payload).Ok? ==>
              p.toValue(FromBytes(p, payload).value) == Decode(p.schema, payload).value.0
  {
    DecodedFits(p.schema, payload);
  }

  /** `from_bytes` ignores trailing bytes, so a frame may be longer than its message. */
  lemma TrailingBytesIgnored<T(!new)>(p: Protocol<T>, m: T, trailing: Bytes)
    requires Faithful(p) && |Payload(p, m)| < 0x1_0000_0000
    ensures FromBytes(p, Payload(p, m) + trailing) == Ok(m)
  {
    DecodeEncode(p.toValue(m), p.schema, trailing);
  }

  lemma FrameParts(payload: Bytes, rest: Bytes)
    requires |payload| < 0x1_0000_0000
    ensures var bytes := Frame(payload) + rest;
            FromLittleEndian32(bytes[..4]) == |payload|
            && bytes[4..4 + |payload|] == payload && bytes[4 + |payload|..] == rest
  {
    LittleEndianRoundTrip(|payload|);
    assert (Frame(payload) + rest)[..4] == LittleEndian32(|payload|);
  }

  lemma ReadWritten<T>(p: Protocol<T>, payload: Bytes, rest: Bytes)
    requires |payload| < 0x1_0000_0000
    ensures ReadFrame(p, Frame(payload) + rest) ==
            if |payload| > MAX_FRAME_SIZE then (Err(FrameTooLarge(|payload|)), payload + rest)
            else match FromBytes(p, payload) case Err(e) => (Err(Deserialize(e)), rest) case Ok(m) => (Ok(m), rest)
  {
    FrameParts(payload, rest);
    assert (Frame(payload) + rest)[4..] == payload + rest;
  }

  /** A written message is read back exactly when its payload is within the reader's cap. */
  lemma FrameRoundTrip<T(!new)>(p: Protocol<T>, m: T, rest: Bytes)
    requires Faithful(p) && |Payload(p, m)| < 0x1_0000_0000
    ensures ReadFrame(p, Frame(Payload(p, m)) + rest) == (Ok(m), rest) <==> |Payload(p, m)| <= MAX_FRAME_SIZE
    ensures |Payload(p, m)| > MAX_FRAME_SIZE ==>
              ReadFrame(p, Frame(Payload(p, m)) + rest) == (Err(FrameTooLarge(|Payload(p, m)|)), Payload(p, m) + rest)
  {
    FromBytesPayload(p, m);
    ReadWritten(p, Payload(p, m), rest);
  }

  /** No strict prefix of a frame is taken for a message. */
  lemma PrefixIsNoMessage<T>(p: Protocol<T>, payload: Bytes, k: nat)
    requires |payload| < 0x1_0000_0000 && k < |Frame(payload)|
    ensures ReadFrame(p, Frame(payload)[..k]).0.Err?
    ensures |payload| <= MAX_FRAME_SIZE ==> ReadFrame(p, Frame(payload)[..k]) == (Err(Io), [])
  {
    if k >= 4 {
      LittleEndianRoundTrip(|payload|);
      assert Frame(payload)[..k][..4] == LittleEndian32(|payload|);
    }
  }

  // ---------------------------------------------------------------------------
  // Whole streams
  // ---------------------------------------------------------------------------

  ghost predicate Writable<T>(p: Protocol<T>, ms: seq<T>) {
    forall m <- ms :: |Payload(p, m)| < 0x1_0000_0000
  }

  ghost predicate Readable<T>(p: Protocol<T>, ms: seq<T>) {
    forall m <- ms :: |Payload(p, m)| <= MAX_FRAME_SIZE
  }

  /** Everything that a run of `WriteMessage` calls leaves on the wire. */
  ghost function Stream<T>(p: Protocol<T>, ms: seq<T>): Bytes
    requires Writable(p, ms)
  {
    if ms == [] then [] else Frame(Payload(p, ms[0])) + Stream(p, ms[1..])
  }

  /** `n` calls of `ReadMessage`, ending at the first error. */
  ghost function ReadStream<T>(p: Protocol<T>, n: nat, input: Bytes): Result<(seq<T>, Bytes), CodecError> {
    if n == 0 then Ok(([], input))
    else
      match ReadFrame(p, input)
      case (Err(e), _) => Err(e)
      case (Ok(m), rest) =>
        match ReadStream(p, n - 1, rest)
        case Err(e) => Err(e)
        case Ok((ms, rest')) => Ok(([m] + ms, rest'))
  }

  lemma {:induction false} ReadableStream<T(!new)>(p: Protocol<T>, ms: seq<T>)
    requires Faithful(p) && Writable(p, ms) && Readable(p, ms)
    ensures ReadStream(p, |ms|, Stream(p, ms)) == Ok((ms, []))
  {
    if ms != [] {
      FrameRoundTrip(p, ms[0], Stream(p, ms[1..]));
      ReadableStream(p, ms[1..]);
      assert ms == [ms[0]] + ms[1..];
    }
  }

  lemma {:induction false} OversizedStream<T(!new)>(p: Protocol<T>, ms: seq<T>)
    requires Faithful(p) && Writable(p, ms) && !Readable(p, ms)
    ensures ReadStream(p, |ms|, Stream(p, ms)).Err?
  {
    FrameRoundTrip(p, ms[0], Stream(p, ms[1..]));
    if |Payload(p, ms[0])| <= MAX_FRAME_SIZE {
      OversizedStream(p, ms[1..]);
    }
  }

  /** Reading as many messages as were written returns those messages and consumes every byte,
      exactly when no payload exceeds the cap. */
  lemma StreamRoundTrip<T(!new)>(p: Protocol<T>, ms: seq<T>)
    requires Faithful(p) && Writable(p, ms)
    ensures ReadStream(p, |ms|, Stream(p, ms)) == Ok((ms, [])) <==> Readable(p, ms)
  {
    if Readable(p, ms) {
      ReadableStream(p, ms);
    } else {
      OversizedStream(p, ms);
    }
  }

  lemma ControlStreamRoundTrip(ms: seq<ControlMessage>)
    requires Readable(CONTROL, ms)
    ensures ReadStream(CONTROL, |ms|, Stream(CONTROL, ms)) == Ok((ms, []))
  {
    ControlFaithful();
    StreamRoundTrip(CONTROL, ms);
  }

  lemma ChannelStreamRoundTrip(ms: seq<ChannelMessage>)
    requires Readable(CHANNEL, ms)
    ensures ReadStream(CHANNEL, |ms|, Stream(CHANNEL, ms)) == Ok((ms, []))
  {
    ChannelFaithful();
    StreamRoundTrip(CHANNEL, ms);
  }

  lemma ClientStreamRoundTrip(ms: seq<ClientMessage>)
    requires Readable(CLIENT, ms)
    ensures ReadStream(CLIENT, |ms|, Stream(CLIENT, ms)) == Ok((ms, []))
  {
    ClientFaithful();
    StreamRoundTrip(CLIENT, ms);
  }

  lemma MasterStreamRoundTrip(ms: seq<MasterMessage>)
    requires Readable(MASTER, ms)
    ensures ReadStream(MASTER, |ms|, Stream(MASTER, ms)) == Ok((ms, []))
  {
    MasterFaithful();
    StreamRoundTrip(MASTER, ms);
  }

  // ---------------------------------------------------------------------------
  // Frame arithmetic
  // ---------------------------------------------------------------------------

  /** Sizes of the frames that carry raw bytes: a one-byte tag, the length, the bytes. */
  lemma RawPayload(data: Bytes)
    ensures Encode(Raw(data)) == EncodeVarint(|data|) + data == Encode(Pair(Raw(data), Unit))
  {
  }

  lemma VariantPayload(tag: nat, payload: Value)
    requires tag < 0x80
    ensures |Encode(Variant(tag, payload))| == 1 + |Encode(payload)|
  {
  }

  lemma DataPayloads(data: Bytes)
    ensures |Payload(CHANNEL, Data(data))| == 1 + |EncodeVarint(|data|)| + |data|
    ensures |Payload(MASTER, Stdout(data))| == 1 + |EncodeVarint(|data|)| + |data|
    ensures |Payload(MASTER, Stderr(data))| == 1 + |EncodeVarint(|data|)| + |data|
    ensures |Payload(CLIENT, Stdin(data))| == 1 + |EncodeVarint(|data|)| + |data|
  {
    RawPayload(data);
    VariantPayload(5, Pair(Raw(data), Unit));
    VariantPayload(1, Raw(data));
    VariantPayload(2, Raw(data));
  }

  lemma ExtendedDataPayload(dataType: U32, data: Bytes)
    ensures |Payload(CHANNEL, ExtendedData(dataType, data))|
         == 1 + |EncodeVarint(dataType)| + |EncodeVarint(|data|)| + |data|
  {
    assert Encode(Pair(Raw(data), Unit)) == EncodeVarint(|data|) + data;
    assert Encode(ChannelValue(ExtendedData(dataType, data)).payload)
        == EncodeVarint(dataType) + Encode(Pair(Raw(data), Unit));
  }

  /** The buffers of the programs hold 4096, 8192 or 32768 bytes; every frame cut from one fits. */
  lemma ChunksFit(data: Bytes)
    requires |data| <= 32768
    ensures |Payload(CHANNEL, Data(data))| <= MAX_FRAME_SIZE
    ensures |Payload(CHANNEL, ExtendedData(1, data))| <= MAX_FRAME_SIZE
    ensures |Payload(CLIENT, Stdin(data))| <= MAX_FRAME_SIZE
  {
    DataPayloads(data);
    ExtendedDataPayload(1, data);
    VarintLength(|data|);
    VarintLength(1);
  }

  /** A received message never encodes to more bytes than the frame it came in. */
  lemma ReceivedPayload<T(!new)>(p: Protocol<T>, payload: Bytes, m: T)
    requires Faithful(p) && FromBytes(p, payload) == Ok(m)
    ensures |Payload(p, m)| <= |payload|
  {
    FromBytesIsDecode(p, payload);
    DecodedFits(p.schema, payload);
  }

  /** What the ControlMaster relay forwards is no longer than the frame it came from, so a relayed
      frame is never refused: bytes keep fitting hop after hop. */
  lemma RelayNeverGrows(payload: Bytes, data: Bytes)
    ensures FromBytes(CHANNEL, payload) == Ok(Data(data)) ==> |Payload(MASTER, Stdout(data))| <= |payload|
    ensures forall t :: FromBytes(CHANNEL, payload) == Ok(ExtendedData(t, data)) ==>
                          |Payload(MASTER, Stderr(data))| < |payload|
    ensures FromBytes(CLIENT, payload) == Ok(Stdin(data)) ==> |Payload(CHANNEL, Data(data))| <= |payload|
  {
    ChannelFaithful();
    ClientFaithful();
    DataPayloads(data);
    if FromBytes(CHANNEL, payload) == Ok(Data(data)) {
      ReceivedPayload(CHANNEL, payload, Data(data));
    }
    forall t: U32 | FromBytes(CHANNEL, payload) == Ok(ExtendedData(t, data))
      ensures |Payload(MASTER, Stderr(data))| < |payload|
    {
      ExtendedDataPayload(t, data);
      ReceivedPayload(CHANNEL, payload, ExtendedData(t, data));
    }
    if FromBytes(CLIENT, payload) == Ok(Stdin(data)) {
      ReceivedPayload(CLIENT, payload, Stdin(data));
    }
  }

  /** A user name that arrives within the cap has a length that fits in 16 bits. */
  lemma UsernameFits(payload: Bytes, version: U16, username: string)
    requires |payload| <= MAX_FRAME_SIZE
    requires FromBytes(CONTROL, payload) == Ok(ClientHello(version, username))
    ensures |Utf8.Encode(username)| < 0x1_0000
  {
    ControlFaithful();
    ReceivedPayload(CONTROL, payload, ClientHello(version, username));
    var n := |Utf8.Encode(username)|;
    VarintLength(n);
    assert Encode(Pair(Str(username), Unit)) == EncodeVarint(n) + Utf8.Encode(username);
    assert Encode(ControlValue(ClientHello(version, username)).payload)
        == EncodeVarint(version) + Encode(Pair(Str(username), Unit));
    assert |Payload(CONTROL, ClientHello(version, username))|
        == 1 + |EncodeVarint(version)| + |EncodeVarint(n)| + n;
  }
}
