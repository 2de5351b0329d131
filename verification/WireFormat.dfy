/** The bytes of every message, written out: variant numbers, field order and field encodings as a peer
    expects them on the wire. */
module WireFormat {
  import opened Wrappers
  import opened Messages
  import opened Postcard
  import Codec
  import Utf8

  // ---------------------------------------------------------------------------
  // Field encodings
  // ---------------------------------------------------------------------------

  /** What groups of seven bits stand for, the low ones first. */
  function Groups(bytes: Bytes): nat {
    if bytes == [] then 0 else bytes[0] % 0x80 + 0x80 * Groups(bytes[1..])
  }

  /** The high bit is set on all bytes but the last, and the last one is not zero unless it is alone. */
  ghost predicate Unpadded(bytes: Bytes) {
    && bytes != []
    && (forall i :: 0 <= i < |bytes| - 1 ==> bytes[i] >= 0x80)
    && bytes[|bytes| - 1] < 0x80 && (|bytes| > 1 ==> bytes[|bytes| - 1] != 0)
  }

  /** A number's varint is the one unpadded sequence of groups that stands for it. */
  lemma {:induction false} VarintExactly(n: nat, bytes: Bytes)
    ensures bytes == EncodeVarint(n) <==> Unpadded(bytes) && Groups(bytes) == n
    decreases |bytes| + n
  {
    if bytes != [] {
      var rest := bytes[1..];
      assert bytes == [bytes[0]] + rest;
      if n >= 0x80 {
        VarintExactly(n / 0x80, rest);
      }
      if Unpadded(bytes) && rest != [] {
        assert Unpadded(rest);
        NotZero(rest);
      }
    }
  }

  lemma {:induction false} NotZero(bytes: Bytes)
    requires Unpadded(bytes) && bytes[|bytes| - 1] != 0
    ensures Groups(bytes) > 0
    decreases |bytes|
  {
    if |bytes| > 1 {
      NotZero(bytes[1..]);
    }
  }

  /** Raw bytes after their number. */
  function Blob(bytes: Bytes): Bytes {
    EncodeVarint(|bytes|) + bytes
  }

  function Word(s: string): Bytes {
    Blob(Utf8.Encode(s))
  }

  function Bit(b: bool): Bytes {
    if b then [1] else [0]
  }

  function WindowBytes(cols: U32, rows: U32, widthPx: U32, heightPx: U32): Bytes {
    EncodeVarint(cols) + EncodeVarint(rows) + EncodeVarint(widthPx) + EncodeVarint(heightPx)
  }

  function PtyBytes(p: PtyReqParams): Bytes {
    Word(p.term) + WindowBytes(p.widthCols, p.heightRows, p.widthPx, p.heightPx)
  }

  function TcpipBytes(p: TcpipParams): Bytes {
    Word(p.host) + EncodeVarint(p.port) + Word(p.originatorAddr) + EncodeVarint(p.originatorPort)
  }

  function SpecBytes(s: ForwardSpec): Bytes {
    Word(s.bindAddr) + EncodeVarint(s.bindPort) + Word(s.targetHost) + EncodeVarint(s.targetPort)
  }

  function SpecsBytes(specs: seq<ForwardSpec>): Bytes {
    if specs == [] then [] else SpecBytes(specs[0]) + SpecsBytes(specs[1..])
  }

  function EnvBytes(env: seq<(string, string)>): Bytes {
    if env == [] then [] else Word(env[0].0) + Word(env[0].1) + EnvBytes(env[1..])
  }

  // ---------------------------------------------------------------------------
  // Messages
  // ---------------------------------------------------------------------------

  function ReasonBytes(r: DisconnectReason): Bytes {
    match r case ByApplication => [0] case ProtocolError => [1] case AuthFailed => [2] case Timeout => [3]
  }

  function ControlBytes(m: ControlMessage): Bytes {
    match m
    case ClientHello(version, username) => [0] + EncodeVarint(version) + Word(username)
    case AuthChallenge(nonce) => [1] + nonce
    case AuthResponse(pubkey, signature) => [2] + Blob(pubkey) + Blob(signature)
    case AuthResult(AuthSuccess) => [3, 0]
    case AuthResult(AuthFailure) => [3, 1]
    case Disconnect(reason, description) => [4] + ReasonBytes(reason) + Word(description)
    case KeepAlive(seqNo) => [5] + EncodeVarint(seqNo)
    case KeepAliveAck(seqNo) => [6] + EncodeVarint(seqNo)
    case TcpForwardRequest(addr, port) => [7] + Word(addr) + EncodeVarint(port)
    case TcpForwardConfirm(port) => [8] + EncodeVarint(port)
    case TcpForwardFailure(description) => [9] + Word(description)
    case TcpForwardCancel(addr, port) => [10] + Word(addr) + EncodeVarint(port)
  }

  function TypeBytes(t: ChannelType): Bytes {
    match t case SessionType => [0] case DirectTcpipType => [1] case ForwardedTcpipType => [2]
  }

  function FailureBytes(r: ChannelFailureReason): Bytes {
    match r case AdministrativelyProhibited => [0] case UnknownChannelType => [1] case ResourceShortage => [2]
  }

  function ParamsBytes(p: ChannelParams): Bytes {
    match p
    case SessionParams => [0]
    case DirectTcpipParams(t) => [1] + TcpipBytes(t)
    case ForwardedTcpipParams(t) => [2] + TcpipBytes(t)
  }

  function RequestBytes(r: RequestType): Bytes {
    match r
    case PtyReq(pty) => [0] + PtyBytes(pty)
    case Shell => [1]
    case Exec(command) => [2] + Word(command)
    case WindowChange(w) => [3] + WindowBytes(w.widthCols, w.heightRows, w.widthPx, w.heightPx)
    case Signal(signal) => [4] + Word(signal)
    case Env(name, value) => [5] + Word(name) + Word(value)
    case Subsystem(name) => [6] + Word(name)
  }

  function ChannelBytes(m: ChannelMessage): Bytes {
    match m
    case Open(t, p) => [0] + TypeBytes(t) + ParamsBytes(p)
    case OpenConfirmation(size) => [1] + EncodeVarint(size)
    case OpenFailure(r, description) => [2] + FailureBytes(r) + Word(description)
    case Close => [3]
    case Eof => [4]
    case Data(data) => [5] + Blob(data)
    case ExtendedData(dataType, data) => [6] + EncodeVarint(dataType) + Blob(data)
    case Request(r, want) => [7] + RequestBytes(r) + Bit(want)
    case RequestSuccess => [8]
    case RequestFailure => [9]
    case ExitStatus(status) => [10] + EncodeVarint(status)
    case ExitSignal(signal, core, message) => [11] + Word(signal) + Bit(core) + Word(message)
  }

  function RequestFields(r: MasterSessionRequest): Bytes {
    (match r.command case None => [0] case Some(line) => [1] + Word(line))
    + (Bit(r.noShell)
       + ((EncodeVarint(|r.localForwards|) + SpecsBytes(r.localForwards))
          + (EncodeVarint(|r.remoteForwards|) + SpecsBytes(r.remoteForwards))
          + (match r.pty case None => [0] case Some(pty) => [1] + PtyBytes(pty))
          + (EncodeVarint(|r.env|) + EnvBytes(r.env))))
  }

  function ClientBytes(m: ClientMessage): Bytes {
    match m
    case OpenSession(r) => [0] + RequestFields(r)
    case Stdin(data) => [1] + Blob(data)
    case ClientEof => [2]
    case ClientWindowChange(w) => [3] + WindowBytes(w.widthCols, w.heightRows, w.widthPx, w.heightPx)
  }

  function MasterBytes(m: MasterMessage): Bytes {
    match m
    case Ready => [0]
    case Stdout(data) => [1] + Blob(data)
    case Stderr(data) => [2] + Blob(data)
    case MasterExitStatus(status) => [3] + EncodeVarint(status)
    case MasterEof => [4]
    case MasterError(message) => [5] + Word(message)
  }

  // ---------------------------------------------------------------------------
  // The codec puts exactly these bytes on the wire
  // ---------------------------------------------------------------------------

  lemma Tagged(tag: Byte, payload: Value)
    requires tag < 0x80
    ensures Encode(Variant(tag, payload)) == [tag] + Encode(payload)
  {
  }

  lemma TaggedUnit(tag: Byte)
    requires tag < 0x80
    ensures Encode(Variant(tag, Unit)) == [tag]
  {
  }

  lemma One(tag: Byte, a: Value)
    requires tag < 0x80
    ensures Encode(Variant(tag, Pair(a, Unit))) == [tag] + Encode(a)
  {
    Tagged(tag, Pair(a, Unit));
  }

  lemma Cat(a: Value, b: Value)
    ensures Encode(Pair(a, b)) == Encode(a) + Encode(b)
  {
  }

  lemma Regroup(a: Bytes, b: Bytes, c: Bytes)
    ensures a + (b + c) == a + b + c
  {
  }

  lemma PairOnWire(a: Value, b: Value)
    ensures Encode(Pair(a, Pair(b, Unit))) == Encode(a) + Encode(b)
  {
    Cat(a, Pair(b, Unit));
    Cat(b, Unit);
    assert Encode(b) + [] == Encode(b);
  }

  lemma Two(tag: Byte, a: Value, b: Value)
    requires tag < 0x80
    ensures Encode(Variant(tag, Pair(a, Pair(b, Unit)))) == [tag] + Encode(a) + Encode(b)
  {
    Tagged(tag, Pair(a, Pair(b, Unit)));
    PairOnWire(a, b);
    Regroup([tag], Encode(a), Encode(b));
  }

  lemma TripleOnWire(a: Value, b: Value, c: Value)
    ensures Encode(Pair(a, Pair(b, Pair(c, Unit)))) == Encode(a) + Encode(b) + Encode(c)
  {
    PairOnWire(b, c);
    Cat(a, Pair(b, Pair(c, Unit)));
    Regroup(Encode(a), Encode(b), Encode(c));
  }

  lemma Three(tag: Byte, a: Value, b: Value, c: Value)
    requires tag < 0x80
    ensures Encode(Variant(tag, Pair(a, Pair(b, Pair(c, Unit))))) == [tag] + Encode(a) + Encode(b) + Encode(c)
  {
    Tagged(tag, Pair(a, Pair(b, Pair(c, Unit))));
    TripleOnWire(a, b, c);
    Regroup([tag], Encode(a) + Encode(b), Encode(c));
    Regroup([tag], Encode(a), Encode(b));
  }

  lemma Four(a: Value, b: Value, c: Value, d: Value)
    ensures Encode(Pair(a, Pair(b, Pair(c, Pair(d, Unit))))) == Encode(a) + Encode(b) + Encode(c) + Encode(d)
  {
    TripleOnWire(b, c, d);
    Cat(a, Pair(b, Pair(c, Pair(d, Unit))));
    Regroup(Encode(a), Encode(b) + Encode(c), Encode(d));
    Regroup(Encode(a), Encode(b), Encode(c));
  }

  lemma Words(s: string)
    ensures Encode(Str(s)) == Word(s)
  {
  }

  lemma Blobs(bytes: Bytes)
    ensures Encode(Raw(bytes)) == Blob(bytes)
  {
  }

  lemma Numbers(n: nat)
    ensures Encode(Num(n)) == EncodeVarint(n)
  {
  }

  lemma Bits(b: bool)
    ensures Encode(Flag(b)) == Bit(b)
  {
  }

  lemma Arrays(bytes: Bytes)
    ensures Encode(Array(bytes)) == bytes
  {
  }

  lemma Nested(tag: Byte, inner: Byte)
    requires tag < 0x80 && inner < 0x80
    ensures Encode(Variant(tag, Variant(inner, Unit))) == [tag, inner]
  {
    TaggedUnit(inner);
    Tagged(tag, Variant(inner, Unit));
  }

  lemma ControlOnWire(m: ControlMessage)
    ensures Codec.Payload(Codec.CONTROL, m) == ControlBytes(m)
  {
    match m
    case ClientHello(version, username) => Two(0, Num(version), Str(username)); Numbers(version); Words(username);
    case AuthChallenge(nonce) => One(1, Array(nonce)); Arrays(nonce);
    case AuthResponse(pubkey, signature) => Two(2, Raw(pubkey), Raw(signature)); Blobs(pubkey); Blobs(signature);
    case AuthResult(AuthSuccess) => Nested(3, 0);
    case AuthResult(AuthFailure) => Nested(3, 1);
    case Disconnect(reason, d) => Two(4, Variant(ReasonTag(reason), Unit), Str(d)); TaggedUnit(ReasonTag(reason)); Words(d);
    case KeepAlive(seqNo) => One(5, Num(seqNo)); Numbers(seqNo);
    case KeepAliveAck(seqNo) => One(6, Num(seqNo)); Numbers(seqNo);
    case TcpForwardRequest(addr, port) => Two(7, Str(addr), Num(port)); Words(addr); Numbers(port);
    case TcpForwardConfirm(port) => One(8, Num(port)); Numbers(port);
    case TcpForwardFailure(description) => One(9, Str(description)); Words(description);
    case TcpForwardCancel(addr, port) => Two(10, Str(addr), Num(port)); Words(addr); Numbers(port);
  }

  lemma WindowOnWire(w: WindowChangeParams)
    ensures Encode(WindowValue(w)) == WindowBytes(w.widthCols, w.heightRows, w.widthPx, w.heightPx)
  {
    Four(Num(w.widthCols), Num(w.heightRows), Num(w.widthPx), Num(w.heightPx));
  }

  lemma PtyOnWire(p: PtyReqParams)
    ensures Encode(PtyValue(p)) == PtyBytes(p)
  {
    WindowOnWire(WindowChangeParams(p.widthCols, p.heightRows, p.widthPx, p.heightPx));
    Words(p.term);
    assert Encode(PtyValue(p)) == Encode(Str(p.term)) + Encode(PtyValue(p).second);
  }

  lemma TcpipOnWire(p: TcpipParams)
    ensures Encode(TcpipValue(p)) == TcpipBytes(p)
  {
    Four(Str(p.host), Num(p.port), Str(p.originatorAddr), Num(p.originatorPort));
    Words(p.host);
    Words(p.originatorAddr);
  }

  lemma ParamsOnWire(p: ChannelParams)
    ensures Encode(ParamsValue(p)) == ParamsBytes(p)
  {
    match p
    case SessionParams => TaggedUnit(0);
    case DirectTcpipParams(t) => TcpipOnWire(t); Tagged(1, TcpipValue(t));
    case ForwardedTcpipParams(t) => TcpipOnWire(t); Tagged(2, TcpipValue(t));
  }

  lemma RequestOnWire(r: RequestType)
    ensures Encode(RequestValue(r)) == RequestBytes(r)
  {
    match r
    case PtyReq(pty) => PtyOnWire(pty); Tagged(0, PtyValue(pty));
    case Shell => TaggedUnit(1);
    case Exec(command) => One(2, Str(command)); Words(command);
    case WindowChange(w) => WindowOnWire(w); Tagged(3, WindowValue(w));
    case Signal(signal) => One(4, Str(signal)); Words(signal);
    case Env(name, value) => Two(5, Str(name), Str(value)); Words(name); Words(value);
    case Subsystem(name) => One(6, Str(name)); Words(name);
  }

  lemma TypeOnWire(t: ChannelType)
    ensures Encode(TypeValue(t)) == TypeBytes(t)
  {
    match t
    case SessionType => TaggedUnit(0);
    case DirectTcpipType => TaggedUnit(1);
    case ForwardedTcpipType => TaggedUnit(2);
  }

  lemma FailureOnWire(r: ChannelFailureReason)
    ensures Encode(FailureValue(r)) == FailureBytes(r)
  {
    match r
    case AdministrativelyProhibited => TaggedUnit(0);
    case UnknownChannelType => TaggedUnit(1);
    case ResourceShortage => TaggedUnit(2);
  }

  lemma ChannelOnWire(m: ChannelMessage)
    ensures Codec.Payload(Codec.CHANNEL, m) == ChannelBytes(m)
  {
    match m
    case Open(t, p) => Two(0, TypeValue(t), ParamsValue(p)); TypeOnWire(t); ParamsOnWire(p);
    case OpenConfirmation(size) => One(1, Num(size)); Numbers(size);
    case OpenFailure(r, d) => Two(2, FailureValue(r), Str(d)); FailureOnWire(r); Words(d);
    case Close => TaggedUnit(3);
    case Eof => TaggedUnit(4);
    case Data(data) => One(5, Raw(data)); Blobs(data);
    case ExtendedData(t, data) => Two(6, Num(t), Raw(data)); Numbers(t); Blobs(data);
    case Request(r, want) => Two(7, RequestValue(r), Flag(want)); RequestOnWire(r); Bits(want);
    case RequestSuccess => TaggedUnit(8);
    case RequestFailure => TaggedUnit(9);
    case ExitStatus(status) => One(10, Num(status)); Numbers(status);
    case ExitSignal(signal, core, message) =>
      Three(11, Str(signal), Flag(core), Str(message)); Words(signal); Bits(core); Words(message);
  }

  lemma SpecOnWire(s: ForwardSpec)
    ensures Encode(SpecValue(s)) == SpecBytes(s)
  {
    Four(Str(s.bindAddr), Num(s.bindPort), Str(s.targetHost), Num(s.targetPort));
    Words(s.bindAddr);
    Words(s.targetHost);
  }

  lemma {:induction false} SpecsOnWire(specs: seq<ForwardSpec>)
    ensures EncodeAll(SpecValues(specs)) == SpecsBytes(specs) && |SpecValues(specs)| == |specs|
    decreases |specs|
  {
    if specs != [] {
      SpecOnWire(specs[0]);
      SpecsOnWire(specs[1..]);
      assert SpecValues(specs)[1..] == SpecValues(specs[1..]);
    }
  }

  lemma {:induction false} EnvOnWire(env: seq<(string, string)>)
    ensures EncodeAll(EnvValues(env)) == EnvBytes(env) && |EnvValues(env)| == |env|
    decreases |env|
  {
    if env != [] {
      PairOnWire(Str(env[0].0), Str(env[0].1));
      Words(env[0].0);
      Words(env[0].1);
      EnvOnWire(env[1..]);
      assert EnvValues(env)[1..] == EnvValues(env[1..]);
    }
  }

  lemma ListOnWire(vs: seq<Value>, count: nat, bytes: Bytes)
    requires |vs| == count && EncodeAll(vs) == bytes
    ensures Encode(List(vs)) == EncodeVarint(count) + bytes
  {
  }

  lemma OptionalOnWire(command: Option<string>, pty: Option<PtyReqParams>)
    ensures Encode(OptionalTextValue(command)) == match command case None => [0] case Some(line) => [1] + Word(line)
    ensures Encode(OptionalPtyValue(pty)) == match pty case None => [0] case Some(p) => [1] + PtyBytes(p)
  {
    if command.Some? {
      Words(command.value);
    }
    if pty.Some? {
      PtyOnWire(pty.value);
    }
  }

  lemma Six(a: Value, b: Value, c: Value, d: Value, e: Value, f: Value)
    ensures Encode(Pair(a, Pair(b, Pair(c, Pair(d, Pair(e, Pair(f, Unit)))))))
         == Encode(a) + (Encode(b) + (Encode(c) + Encode(d) + Encode(e) + Encode(f)))
  {
    Four(c, d, e, f);
    Cat(a, Pair(b, Pair(c, Pair(d, Pair(e, Pair(f, Unit))))));
    Cat(b, Pair(c, Pair(d, Pair(e, Pair(f, Unit)))));
  }

  lemma SessionRequestOnWire(r: MasterSessionRequest)
    ensures Encode(SessionRequestValue(r)) == RequestFields(r)
  {
    OptionalOnWire(r.command, r.pty);
    SpecsOnWire(r.localForwards);
    SpecsOnWire(r.remoteForwards);
    EnvOnWire(r.env);
    ListOnWire(SpecValues(r.localForwards), |r.localForwards|, SpecsBytes(r.localForwards));
    ListOnWire(SpecValues(r.remoteForwards), |r.remoteForwards|, SpecsBytes(r.remoteForwards));
    ListOnWire(EnvValues(r.env), |r.env|, EnvBytes(r.env));
    Bits(r.noShell);
    Six(OptionalTextValue(r.command), Flag(r.noShell), List(SpecValues(r.localForwards)),
        List(SpecValues(r.remoteForwards)), OptionalPtyValue(r.pty), List(EnvValues(r.env)));
  }

  lemma ClientOnWire(m: ClientMessage)
    ensures Codec.Payload(Codec.CLIENT, m) == ClientBytes(m)
  {
    match m
    case OpenSession(r) => SessionRequestOnWire(r); Tagged(0, SessionRequestValue(r));
    case Stdin(data) => Blobs(data); Tagged(1, Raw(data));
    case ClientEof => TaggedUnit(2);
    case ClientWindowChange(w) => WindowOnWire(w); Tagged(3, WindowValue(w));
  }

  lemma MasterOnWire(m: MasterMessage)
    ensures Codec.Payload(Codec.MASTER, m) == MasterBytes(m)
  {
    match m
    case Ready => TaggedUnit(0);
    case Stdout(data) => Blobs(data); Tagged(1, Raw(data));
    case Stderr(data) => Blobs(data); Tagged(2, Raw(data));
    case MasterExitStatus(status) => Tagged(3, Num(status));
    case MasterEof => TaggedUnit(4);
    case MasterError(message) => Words(message); Tagged(5, Str(message));
  }

  /** The first message of a connection: variant 0, protocol version 1, and the name. */
  lemma HelloOnWire(username: string)
    ensures Codec.Payload(Codec.CONTROL, ClientHello(PROTOCOL_VERSION, username)) == [0, 1] + Word(username)
  {
    ControlOnWire(ClientHello(PROTOCOL_VERSION, username));
    assert EncodeVarint(1) == [1];
  }

  // ---------------------------------------------------------------------------
  // Frames
  // ---------------------------------------------------------------------------

  /** Four bytes with the length, the low one first, and the payload. */
  lemma FrameOnWire(payload: Bytes)
    requires |payload| < 0x1_0000_0000
    ensures var frame := Codec.Frame(payload);
            && |frame| == 4 + |payload| && frame[4..] == payload
            && frame[0] as int + 256 * frame[1] as int + 65536 * frame[2] as int + 16777216 * frame[3] as int == |payload|
  {
    Codec.LittleEndianRoundTrip(|payload|);
  }

  /** What a reader makes of a length it does not like, or of a payload that does not come. */
  lemma BadFrames<T>(p: Codec.Protocol<T>, a: Byte, b: Byte, c: Byte, d: Byte, rest: Bytes)
    ensures var n := a as int + 256 * b as int + 65536 * c as int + 16777216 * d as int;
            && (n > 65536 ==> Codec.ReadFrame(p, [a, b, c, d] + rest) == (Err(Codec.FrameTooLarge(n)), rest))
            && (n <= 65536 && |rest| < n ==> Codec.ReadFrame(p, [a, b, c, d] + rest) == (Err(Codec.Io), []))
            && (n <= 65536 && |rest| >= n ==> Codec.ReadFrame(p, [a, b, c, d] + rest).1 == rest[n..])
  {
    var input := [a, b, c, d] + rest;
    assert input[..4] == [a, b, c, d] && input[4..] == rest;
  }
}
