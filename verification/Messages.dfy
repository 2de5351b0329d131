/** The four message types of the protocol and the schema that their declared variant and field
    order gives them on the wire. */
module Messages {
  import opened Wrappers
  import opened Postcard

  const PROTOCOL_VERSION: U16 := 1

  // ---------------------------------------------------------------------------
  // Control stream
  // ---------------------------------------------------------------------------

  datatype AuthOutcome = AuthSuccess | AuthFailure

  datatype DisconnectReason = ByApplication | ProtocolError | AuthFailed | Timeout

  type Nonce = b: Bytes | |b| == 32 witness seq(32, _ => 0)

  datatype ControlMessage =
    | ClientHello(version: U16, username: string)
    | AuthChallenge(nonce: Nonce)
    | AuthResponse(pubkey: Bytes, signature: Bytes)
    | AuthResult(outcome: AuthOutcome)
    | Disconnect(reason: DisconnectReason, description: string)
    | KeepAlive(seqNo: U64)
    | KeepAliveAck(seqNo: U64)
    | TcpForwardRequest(bindAddr: string, bindPort: U16)
    | TcpForwardConfirm(boundPort: U16)
    | TcpForwardFailure(description: string)
    | TcpForwardCancel(bindAddr: string, bindPort: U16)

  // ---------------------------------------------------------------------------
  // Channel streams
  // ---------------------------------------------------------------------------

  datatype ChannelType = SessionType | DirectTcpipType | ForwardedTcpipType

  datatype TcpipParams = TcpipParams(host: string, port: U16, originatorAddr: string, originatorPort: U16)

  datatype ChannelParams =
    | SessionParams
    | DirectTcpipParams(params: TcpipParams)
    | ForwardedTcpipParams(params: TcpipParams)

  datatype ChannelFailureReason = AdministrativelyProhibited | UnknownChannelType | ResourceShortage

  datatype PtyReqParams =
    PtyReqParams(term: string, widthCols: U32, heightRows: U32, widthPx: U32, heightPx: U32)

  datatype WindowChangeParams =
    WindowChangeParams(widthCols: U32, heightRows: U32, widthPx: U32, heightPx: U32)

  datatype RequestType =
    | PtyReq(pty: PtyReqParams)
    | Shell
    | Exec(command: string)
    | WindowChange(window: WindowChangeParams)
    | Signal(signal: string)
    | Env(name: string, value: string)
    | Subsystem(name: string)

  datatype ChannelMessage =
    | Open(channelType: ChannelType, params: ChannelParams)
    | OpenConfirmation(maxPacketSize: U32)
    | OpenFailure(failure: ChannelFailureReason, description: string)
    | Close
    | Eof
    | Data(data: Bytes)
    | ExtendedData(dataType: U32, data: Bytes)
    | Request(requestType: RequestType, wantReply: bool)
    | RequestSuccess
    | RequestFailure
    | ExitStatus(status: U32)
    | ExitSignal(signal: string, coreDumped: bool, message: string)

  // ---------------------------------------------------------------------------
  // ControlMaster socket
  // ---------------------------------------------------------------------------

  datatype ForwardSpec = ForwardSpec(bindAddr: string, bindPort: U16, targetHost: string, targetPort: U16)

  datatype MasterSessionRequest = MasterSessionRequest(
    command: Option<string>,
    noShell: bool,
    localForwards: seq<ForwardSpec>,
    remoteForwards: seq<ForwardSpec>,
    pty: Option<PtyReqParams>,
    env: seq<(string, string)>)

  datatype ClientMessage =
    | OpenSession(request: MasterSessionRequest)
    | Stdin(data: Bytes)
    | ClientEof
    | ClientWindowChange(window: WindowChangeParams)

  datatype MasterMessage =
    | Ready
    | Stdout(data: Bytes)
    | Stderr(data: Bytes)
    | MasterExitStatus(status: U32)
    | MasterEof
    | MasterError(message: string)

  // ---------------------------------------------------------------------------
  // Schemas: constructor and field order are the source's declaration order
  // ---------------------------------------------------------------------------

  const PtySchema: Schema :=
    PairOf(Text, PairOf(Varint(W32), PairOf(Varint(W32), PairOf(Varint(W32), PairOf(Varint(W32), UnitOf)))))
  const WindowSchema: Schema :=
    PairOf(Varint(W32), PairOf(Varint(W32), PairOf(Varint(W32), PairOf(Varint(W32), UnitOf))))
  const HostPortSchema: Schema := PairOf(Text, PairOf(Varint(W16), UnitOf))
  const SpecSchema: Schema := PairOf(Text, PairOf(Varint(W16), PairOf(Text, PairOf(Varint(W16), UnitOf))))

  const ControlSchema: Schema := Enum([
    PairOf(Varint(W16), PairOf(Text, UnitOf)),
    PairOf(ByteArray(32), UnitOf),
    PairOf(ByteVec, PairOf(ByteVec, UnitOf)),
    Enum([UnitOf, UnitOf]),
    PairOf(Enum([UnitOf, UnitOf, UnitOf, UnitOf]), PairOf(Text, UnitOf)),
    PairOf(Varint(W64), UnitOf),
    PairOf(Varint(W64), UnitOf),
    HostPortSchema,
    PairOf(Varint(W16), UnitOf),
    PairOf(Text, UnitOf),
    HostPortSchema])

  const RequestSchema: Schema := Enum([
    PtySchema,
    UnitOf,
    PairOf(Text, UnitOf),
    WindowSchema,
    PairOf(Text, UnitOf),
    PairOf(Text, PairOf(Text, UnitOf)),
    PairOf(Text, UnitOf)])

  const ChannelSchema: Schema := Enum([
    PairOf(Enum([UnitOf, UnitOf, UnitOf]), PairOf(Enum([UnitOf, SpecSchema, SpecSchema]), UnitOf)),
    PairOf(Varint(W32), UnitOf),
    PairOf(Enum([UnitOf, UnitOf, UnitOf]), PairOf(Text, UnitOf)),
    UnitOf,
    UnitOf,
    PairOf(ByteVec, UnitOf),
    PairOf(Varint(W32), PairOf(ByteVec, UnitOf)),
    PairOf(RequestSchema, PairOf(Boolean, UnitOf)),
    UnitOf,
    UnitOf,
    PairOf(Varint(W32), UnitOf),
    PairOf(Text, PairOf(Boolean, PairOf(Text, UnitOf)))])

  const SessionRequestSchema: Schema :=
    PairOf(Optional(Text), PairOf(Boolean, PairOf(ListOf(SpecSchema), PairOf(ListOf(SpecSchema),
    PairOf(Optional(PtySchema), PairOf(ListOf(PairOf(Text, PairOf(Text, UnitOf))), UnitOf))))))

  const ClientSchema: Schema := Enum([SessionRequestSchema, ByteVec, UnitOf, WindowSchema])

  const MasterSchema: Schema := Enum([UnitOf, ByteVec, ByteVec, Varint(W32), UnitOf, Text])

  // ---------------------------------------------------------------------------
  // Messages as values
  // ---------------------------------------------------------------------------

  function ReasonTag(r: DisconnectReason): nat {
    match r case ByApplication => 0 case ProtocolError => 1 case AuthFailed => 2 case Timeout => 3
  }

  function ControlValue(m: ControlMessage): Value {
    match m
    case ClientHello(version, username) => Variant(0, Pair(Num(version), Pair(Str(username), Unit)))
    case AuthChallenge(nonce) => Variant(1, Pair(Array(nonce), Unit))
    case AuthResponse(pubkey, signature) => Variant(2, Pair(Raw(pubkey), Pair(Raw(signature), Unit)))
    case AuthResult(outcome) => Variant(3, Variant(if outcome.AuthSuccess? then 0 else 1, Unit))
    case Disconnect(reason, description) =>
      Variant(4, Pair(Variant(ReasonTag(reason), Unit), Pair(Str(description), Unit)))
    case KeepAlive(seqNo) => Variant(5, Pair(Num(seqNo), Unit))
    case KeepAliveAck(seqNo) => Variant(6, Pair(Num(seqNo), Unit))
    case TcpForwardRequest(addr, port) => Variant(7, Pair(Str(addr), Pair(Num(port), Unit)))
    case TcpForwardConfirm(port) => Variant(8, Pair(Num(port), Unit))
    case TcpForwardFailure(description) => Variant(9, Pair(Str(description), Unit))
    case TcpForwardCancel(addr, port) => Variant(10, Pair(Str(addr), Pair(Num(port), Unit)))
  }

  function ControlMessageOf(v: Value): Option<ControlMessage> {
    match v
    case Variant(0, Pair(Num(version), Pair(Str(username), Unit))) =>
      if version < 0x1_0000 then Some(ClientHello(version, username)) else None
    case Variant(1, Pair(Array(nonce), Unit)) => if |nonce| == 32 then Some(AuthChallenge(nonce)) else None
    case Variant(2, Pair(Raw(pubkey), Pair(Raw(signature), Unit))) => Some(AuthResponse(pubkey, signature))
    case Variant(3, Variant(0, Unit)) => Some(AuthResult(AuthSuccess))
    case Variant(3, Variant(1, Unit)) => Some(AuthResult(AuthFailure))
    case Variant(4, Pair(Variant(0, Unit), Pair(Str(d), Unit))) => Some(Disconnect(ByApplication, d))
    case Variant(4, Pair(Variant(1, Unit), Pair(Str(d), Unit))) => Some(Disconnect(ProtocolError, d))
    case Variant(4, Pair(Variant(2, Unit), Pair(Str(d), Unit))) => Some(Disconnect(AuthFailed, d))
    case Variant(4, Pair(Variant(3, Unit), Pair(Str(d), Unit))) => Some(Disconnect(Timeout, d))
    case Variant(5, Pair(Num(n), Unit)) => if n < 0x1_0000_0000_0000_0000 then Some(KeepAlive(n)) else None
    case Variant(6, Pair(Num(n), Unit)) => if n < 0x1_0000_0000_0000_0000 then Some(KeepAliveAck(n)) else None
    case Variant(7, Pair(Str(addr), Pair(Num(port), Unit))) =>
      if port < 0x1_0000 then Some(TcpForwardRequest(addr, port)) else None
    case Variant(8, Pair(Num(port), Unit)) => if port < 0x1_0000 then Some(TcpForwardConfirm(port)) else None
    case Variant(9, Pair(Str(d), Unit)) => Some(TcpForwardFailure(d))
    case Variant(10, Pair(Str(addr), Pair(Num(port), Unit))) =>
      if port < 0x1_0000 then Some(TcpForwardCancel(addr, port)) else None
    case _ => None
  }

  function TcpipValue(p: TcpipParams): Value {
    Pair(Str(p.host), Pair(Num(p.port), Pair(Str(p.originatorAddr), Pair(Num(p.originatorPort), Unit))))
  }

  function TcpipOf(v: Value): Option<TcpipParams> {
    match v
    case Pair(Str(host), Pair(Num(port), Pair(Str(origin), Pair(Num(originPort), Unit)))) =>
      if port < 0x1_0000 && originPort < 0x1_0000 then Some(TcpipParams(host, port, origin, originPort)) else None
    case _ => None
  }

  function ParamsValue(p: ChannelParams): Value {
    match p
    case SessionParams => Variant(0, Unit)
    case DirectTcpipParams(t) => Variant(1, TcpipValue(t))
    case ForwardedTcpipParams(t) => Variant(2, TcpipValue(t))
  }

  function ParamsOf(v: Value): Option<ChannelParams> {
    match v
    case Variant(0, Unit) => Some(SessionParams)
    case Variant(1, t) => if TcpipOf(t).Some? then Some(DirectTcpipParams(TcpipOf(t).value)) else None
    case Variant(2, t) => if TcpipOf(t).Some? then Some(ForwardedTcpipParams(TcpipOf(t).value)) else None
    case _ => None
  }

  function TypeValue(t: ChannelType): Value {
    Variant(match t case SessionType => 0 case DirectTcpipType => 1 case ForwardedTcpipType => 2, Unit)
  }

  function TypeOf(v: Value): Option<ChannelType> {
    match v
    case Variant(0, Unit) => Some(SessionType)
    case Variant(1, Unit) => Some(DirectTcpipType)
    case Variant(2, Unit) => Some(ForwardedTcpipType)
    case _ => None
  }

  function FailureValue(r: ChannelFailureReason): Value {
    Variant(match r case AdministrativelyProhibited => 0 case UnknownChannelType => 1 case ResourceShortage => 2, Unit)
  }

  function FailureOf(v: Value): Option<ChannelFailureReason> {
    match v
    case Variant(0, Unit) => Some(AdministrativelyProhibited)
    case Variant(1, Unit) => Some(UnknownChannelType)
    case Variant(2, Unit) => Some(ResourceShortage)
    case _ => None
  }

  function WindowValue(w: WindowChangeParams): Value {
    Pair(Num(w.widthCols), Pair(Num(w.heightRows), Pair(Num(w.widthPx), Pair(Num(w.heightPx), Unit))))
  }

  function WindowOf(v: Value): Option<WindowChangeParams> {
    match v
    case Pair(Num(a), Pair(Num(b), Pair(Num(c), Pair(Num(d), Unit)))) =>
      if a < 0x1_0000_0000 && b < 0x1_0000_0000 && c < 0x1_0000_0000 && d < 0x1_0000_0000
      then Some(WindowChangeParams(a, b, c, d)) else None
    case _ => None
  }

  function PtyValue(p: PtyReqParams): Value {
    Pair(Str(p.term), WindowValue(WindowChangeParams(p.widthCols, p.heightRows, p.widthPx, p.heightPx)))
  }

  function PtyOf(v: Value): Option<PtyReqParams> {
    match v
    case Pair(Str(term), w) =>
      (match WindowOf(w)
       case Some(WindowChangeParams(a, b, c, d)) => Some(PtyReqParams(term, a, b, c, d))
       case None => None)
    case _ => None
  }

  function RequestValue(r: RequestType): Value {
    match r
    case PtyReq(pty) => Variant(0, PtyValue(pty))
    case Shell => Variant(1, Unit)
    case Exec(command) => Variant(2, Pair(Str(command), Unit))
    case WindowChange(w) => Variant(3, WindowValue(w))
    case Signal(signal) => Variant(4, Pair(Str(signal), Unit))
    case Env(name, value) => Variant(5, Pair(Str(name), Pair(Str(value), Unit)))
    case Subsystem(name) => Variant(6, Pair(Str(name), Unit))
  }

  function RequestOf(v: Value): Option<RequestType> {
    match v
    case Variant(0, p) => if PtyOf(p).Some? then Some(PtyReq(PtyOf(p).value)) else None
    case Variant(1, Unit) => Some(Shell)
    case Variant(2, Pair(Str(command), Unit)) => Some(Exec(command))
    case Variant(3, w) => if WindowOf(w).Some? then Some(WindowChange(WindowOf(w).value)) else None
    case Variant(4, Pair(Str(signal), Unit)) => Some(Signal(signal))
    case Variant(5, Pair(Str(name), Pair(Str(value), Unit))) => Some(Env(name, value))
    case Variant(6, Pair(Str(name), Unit)) => Some(Subsystem(name))
    case _ => None
  }

  function ChannelValue(m: ChannelMessage): Value {
    match m
    case Open(t, p) => Variant(0, Pair(TypeValue(t), Pair(ParamsValue(p), Unit)))
    case OpenConfirmation(n) => Variant(1, Pair(Num(n), Unit))
    case OpenFailure(r, d) => Variant(2, Pair(FailureValue(r), Pair(Str(d), Unit)))
    case Close => Variant(3, Unit)
    case Eof => Variant(4, Unit)
    case Data(data) => Variant(5, Pair(Raw(data), Unit))
    case ExtendedData(t, data) => Variant(6, Pair(Num(t), Pair(Raw(data), Unit)))
    case Request(r, want) => Variant(7, Pair(RequestValue(r), Pair(Flag(want), Unit)))
    case RequestSuccess => Variant(8, Unit)
    case RequestFailure => Variant(9, Unit)
    case ExitStatus(n) => Variant(10, Pair(Num(n), Unit))
    case ExitSignal(signal, core, message) => Variant(11, Pair(Str(signal), Pair(Flag(core), Pair(Str(message), Unit))))
  }

  function ChannelMessageOf(v: Value): Option<ChannelMessage> {
    match v
    case Variant(0, Pair(t, Pair(p, Unit))) =>
      if TypeOf(t).Some? && ParamsOf(p).Some? then Some(Open(TypeOf(t).value, ParamsOf(p).value)) else None
    case Variant(1, Pair(Num(n), Unit)) => if n < 0x1_0000_0000 then Some(OpenConfirmation(n)) else None
    case Variant(2, Pair(r, Pair(Str(d), Unit))) =>
      if FailureOf(r).Some? then Some(OpenFailure(FailureOf(r).value, d)) else None
    case Variant(3, Unit) => Some(Close)
    case Variant(4, Unit) => Some(Eof)
    case Variant(5, Pair(Raw(data), Unit)) => Some(Data(data))
    case Variant(6, Pair(Num(t), Pair(Raw(data), Unit))) =>
      if t < 0x1_0000_0000 then Some(ExtendedData(t, data)) else None
    case Variant(7, Pair(r, Pair(Flag(want), Unit))) =>
      if RequestOf(r).Some? then Some(Request(RequestOf(r).value, want)) else None
    case Variant(8, Unit) => Some(RequestSuccess)
    case Variant(9, Unit) => Some(RequestFailure)
    case Variant(10, Pair(Num(n), Unit)) => if n < 0x1_0000_0000 then Some(ExitStatus(n)) else None
    case Variant(11, Pair(Str(signal), Pair(Flag(core), Pair(Str(message), Unit)))) =>
      Some(ExitSignal(signal, core, message))
    case _ => None
  }

  function SpecValue(s: ForwardSpec): Value {
    Pair(Str(s.bindAddr), Pair(Num(s.bindPort), Pair(Str(s.targetHost), Pair(Num(s.targetPort), Unit))))
  }

  function SpecOf(v: Value): Option<ForwardSpec> {
    match v
    case Pair(Str(addr), Pair(Num(port), Pair(Str(target), Pair(Num(targetPort), Unit)))) =>
      if port < 0x1_0000 && targetPort < 0x1_0000 then Some(ForwardSpec(addr, port, target, targetPort)) else None
    case _ => None
  }

  function SpecValues(specs: seq<ForwardSpec>): seq<Value> {
    if specs == [] then [] else [SpecValue(specs[0])] + SpecValues(specs[1..])
  }

  function SpecsOf(vs: seq<Value>): Option<seq<ForwardSpec>> {
    if vs == [] then Some([])
    else
      match (SpecOf(vs[0]), SpecsOf(vs[1..]))
      case (Some(s), Some(rest)) => Some([s] + rest)
      case _ => None
  }

  function EnvValues(env: seq<(string, string)>): seq<Value> {
    if env == [] then [] else [Pair(Str(env[0].0), Pair(Str(env[0].1), Unit))] + EnvValues(env[1..])
  }

  function EnvOf(vs: seq<Value>): Option<seq<(string, string)>> {
    if vs == [] then Some([])
    else
      match (vs[0], EnvOf(vs[1..]))
      case (Pair(Str(name), Pair(Str(value), Unit)), Some(rest)) => Some([(name, value)] + rest)
      case _ => None
  }

  function OptionalTextValue(o: Option<string>): Value {
    match o case None => Absent case Some(s) => Present(Str(s))
  }

  function OptionalTextOf(v: Value): Option<Option<string>> {
    match v
    case Absent => Some(None)
    case Present(Str(s)) => Some(Some(s))
    case _ => None
  }

  function OptionalPtyValue(o: Option<PtyReqParams>): Value {
    match o case None => Absent case Some(p) => Present(PtyValue(p))
  }

  function OptionalPtyOf(v: Value): Option<Option<PtyReqParams>> {
    match v
    case Absent => Some(None)
    case Present(p) => if PtyOf(p).Some? then Some(Some(PtyOf(p).value)) else None
    case _ => None
  }

  function SessionRequestValue(r: MasterSessionRequest): Value {
    Pair(OptionalTextValue(r.command), Pair(Flag(r.noShell),
    Pair(List(SpecValues(r.localForwards)), Pair(List(SpecValues(r.remoteForwards)),
    Pair(OptionalPtyValue(r.pty), Pair(List(EnvValues(r.env)), Unit))))))
  }

  function SessionRequestOf(v: Value): Option<MasterSessionRequest> {
    match v
    case Pair(command, Pair(Flag(noShell), Pair(List(locals), Pair(List(remotes), Pair(pty, Pair(List(env), Unit)))))) =>
      (match (OptionalTextOf(command), SpecsOf(locals), SpecsOf(remotes), OptionalPtyOf(pty), EnvOf(env))
       case (Some(c), Some(l), Some(r), Some(p), Some(e)) => Some(MasterSessionRequest(c, noShell, l, r, p, e))
       case _ => None)
    case _ => None
  }

  function ClientValue(m: ClientMessage): Value {
    match m
    case OpenSession(r) => Variant(0, SessionRequestValue(r))
    case Stdin(data) => Variant(1, Raw(data))
    case ClientEof => Variant(2, Unit)
    case ClientWindowChange(w) => Variant(3, WindowValue(w))
  }

  function ClientMessageOf(v: Value): Option<ClientMessage> {
    match v
    case Variant(0, r) => if SessionRequestOf(r).Some? then Some(OpenSession(SessionRequestOf(r).value)) else None
    case Variant(1, Raw(data)) => Some(Stdin(data))
    case Variant(2, Unit) => Some(ClientEof)
    case Variant(3, w) => if WindowOf(w).Some? then Some(ClientWindowChange(WindowOf(w).value)) else None
    case _ => None
  }

  function MasterValue(m: MasterMessage): Value {
    match m
    case Ready => Variant(0, Unit)
    case Stdout(data) => Variant(1, Raw(data))
    case Stderr(data) => Variant(2, Raw(data))
    case MasterExitStatus(n) => Variant(3, Num(n))
    case MasterEof => Variant(4, Unit)
    case MasterError(message) => Variant(5, Str(message))
  }

  function MasterMessageOf(v: Value): Option<MasterMessage> {
    match v
    case Variant(0, Unit) => Some(Ready)
    case Variant(1, Raw(data)) => Some(Stdout(data))
    case Variant(2, Raw(data)) => Some(Stderr(data))
    case Variant(3, Num(n)) => if n < 0x1_0000_0000 then Some(MasterExitStatus(n)) else None
    case Variant(4, Unit) => Some(MasterEof)
    case Variant(5, Str(message)) => Some(MasterError(message))
    case _ => None
  }

  // ---------------------------------------------------------------------------
  // Each message is a value of its schema, and is recovered from it
  // ---------------------------------------------------------------------------

  const TextOnly: Schema := PairOf(Text, UnitOf)

  lemma UnitShape()
    ensures Shape(Unit, UnitOf)
  {
  }

  lemma TextShape(s: string)
    ensures Shape(Pair(Str(s), Unit), TextOnly)
  {
    UnitShape();
    assert Shape(Str(s), Text);
  }

  lemma NumShape(w: Width, n: nat)
    requires n < Limit(w)
    ensures Shape(Pair(Num(n), Unit), PairOf(Varint(w), UnitOf))
  {
    UnitShape();
    assert Shape(Num(n), Varint(w));
  }

  lemma RawShape(bytes: Bytes)
    ensures Shape(Pair(Raw(bytes), Unit), PairOf(ByteVec, UnitOf))
  {
    UnitShape();
    assert Shape(Raw(bytes), ByteVec);
  }

  lemma HostPortShape(addr: string, port: U16)
    ensures Shape(Pair(Str(addr), Pair(Num(port), Unit)), HostPortSchema)
  {
    NumShape(W16, port);
    assert Shape(Str(addr), Text);
  }

  lemma TagShape(tag: nat, variants: seq<Schema>)
    requires tag < |variants| && tag < Limit(W32) && variants[tag] == UnitOf
    ensures Shape(Variant(tag, Unit), Enum(variants))
  {
    UnitShape();
  }

  lemma VariantShape(tag: nat, payload: Value, variants: seq<Schema>)
    requires tag < |variants| && tag < Limit(W32) && Shape(payload, variants[tag])
    ensures Shape(Variant(tag, payload), Enum(variants))
  {
  }

  lemma PairShape(a: Value, b: Value, s: Schema, t: Schema)
    requires Shape(a, s) && Shape(b, t)
    ensures Shape(Pair(a, b), PairOf(s, t))
  {
  }

  lemma ControlPayloadShape(m: ControlMessage)
    ensures var v := ControlValue(m);
            v.tag < |ControlSchema.variants| && Shape(v.payload, ControlSchema.variants[v.tag])
  {
    match m
    case ClientHello(version, username) => TextShape(username);
      PairShape(Num(version), Pair(Str(username), Unit), Varint(W16), TextOnly);
    case AuthChallenge(nonce) => PairShape(Array(nonce), Unit, ByteArray(32), UnitOf);
    case AuthResponse(pubkey, signature) => RawShape(signature);
      PairShape(Raw(pubkey), Pair(Raw(signature), Unit), ByteVec, PairOf(ByteVec, UnitOf));
    case AuthResult(outcome) => TagShape(if outcome.AuthSuccess? then 0 else 1, [UnitOf, UnitOf]);
    case Disconnect(reason, description) => TextShape(description);
      TagShape(ReasonTag(reason), [UnitOf, UnitOf, UnitOf, UnitOf]);
      PairShape(Variant(ReasonTag(reason), Unit), Pair(Str(description), Unit),
                Enum([UnitOf, UnitOf, UnitOf, UnitOf]), TextOnly);
    case KeepAlive(n) => NumShape(W64, n);
    case KeepAliveAck(n) => NumShape(W64, n);
    case TcpForwardRequest(a, p) => HostPortShape(a, p);
    case TcpForwardConfirm(p) => NumShape(W16, p);
    case TcpForwardFailure(d) => TextShape(d);
    case TcpForwardCancel(a, p) => HostPortShape(a, p);
  }

  lemma ControlValueShape(m: ControlMessage)
    ensures Shape(ControlValue(m), ControlSchema)
  {
    ControlPayloadShape(m);
    VariantShape(ControlValue(m).tag, ControlValue(m).payload, ControlSchema.variants);
  }

  lemma ControlMessageRecovered(m: ControlMessage)
    ensures ControlMessageOf(ControlValue(m)) == Some(m)
  {
  }

  lemma WindowShape(w: WindowChangeParams)
    ensures Shape(WindowValue(w), WindowSchema)
  {
    NumShape(W32, w.heightPx);
    PairShape(Num(w.widthPx), Pair(Num(w.heightPx), Unit), Varint(W32), PairOf(Varint(W32), UnitOf));
    assert Shape(WindowValue(w).second, WindowSchema.second);
  }

  lemma PtyShape(p: PtyReqParams)
    ensures Shape(PtyValue(p), PtySchema)
  {
    WindowShape(WindowChangeParams(p.widthCols, p.heightRows, p.widthPx, p.heightPx));
    PairShape(Str(p.term), PtyValue(p).second, Text, WindowSchema);
  }

  lemma RequestShape(r: RequestType)
    ensures Shape(RequestValue(r), RequestSchema)
  {
    match r
    case PtyReq(pty) => PtyShape(pty); VariantShape(0, RequestValue(r).payload, RequestSchema.variants);
    case Shell => TagShape(1, RequestSchema.variants);
    case Exec(command) => TextShape(command); VariantShape(2, RequestValue(r).payload, RequestSchema.variants);
    case WindowChange(w) => WindowShape(w); VariantShape(3, RequestValue(r).payload, RequestSchema.variants);
    case Signal(signal) => TextShape(signal); VariantShape(4, RequestValue(r).payload, RequestSchema.variants);
    case Env(name, value) => TextShape(value); PairShape(Str(name), Pair(Str(value), Unit), Text, TextOnly);
      VariantShape(5, RequestValue(r).payload, RequestSchema.variants);
    case Subsystem(name) => TextShape(name); VariantShape(6, RequestValue(r).payload, RequestSchema.variants);
  }

  lemma SpecShape(host: string, port: U16, target: string, targetPort: U16)
    ensures Shape(Pair(Str(host), Pair(Num(port), Pair(Str(target), Pair(Num(targetPort), Unit)))), SpecSchema)
  {
    HostPortShape(target, targetPort);
    PairShape(Num(port), Pair(Str(target), Pair(Num(targetPort), Unit)), Varint(W16), HostPortSchema);
  }

  lemma ParamsShape(p: ChannelParams)
    ensures Shape(ParamsValue(p), Enum([UnitOf, SpecSchema, SpecSchema]))
  {
    if p.SessionParams? {
      TagShape(0, [UnitOf, SpecSchema, SpecSchema]);
    } else {
      var t := p.params;
      SpecShape(t.host, t.port, t.originatorAddr, t.originatorPort);
      VariantShape(if p.DirectTcpipParams? then 1 else 2, TcpipValue(t), [UnitOf, SpecSchema, SpecSchema]);
    }
  }

  lemma ChannelPayloadShape(m: ChannelMessage)
    ensures var v := ChannelValue(m);
            v.tag < |ChannelSchema.variants| && Shape(v.payload, ChannelSchema.variants[v.tag])
  {
    var three := [UnitOf, UnitOf, UnitOf];
    match m
    case Open(t, p) => TagShape(TypeValue(t).tag, three); ParamsShape(p); UnitShape();
      PairShape(ParamsValue(p), Unit, Enum([UnitOf, SpecSchema, SpecSchema]), UnitOf);
      PairShape(TypeValue(t), Pair(ParamsValue(p), Unit), Enum(three), ChannelSchema.variants[0].second);
    case OpenConfirmation(n) => NumShape(W32, n);
    case OpenFailure(r, d) => TagShape(FailureValue(r).tag, three); TextShape(d);
      PairShape(FailureValue(r), Pair(Str(d), Unit), Enum(three), TextOnly);
    case Close => UnitShape();
    case Eof => UnitShape();
    case Data(data) => RawShape(data);
    case ExtendedData(t, data) => RawShape(data);
      PairShape(Num(t), Pair(Raw(data), Unit), Varint(W32), PairOf(ByteVec, UnitOf));
    case Request(r, want) => RequestShape(r); UnitShape();
      PairShape(Flag(want), Unit, Boolean, UnitOf);
      PairShape(RequestValue(r), Pair(Flag(want), Unit), RequestSchema, PairOf(Boolean, UnitOf));
    case RequestSuccess => UnitShape();
    case RequestFailure => UnitShape();
    case ExitStatus(n) => NumShape(W32, n);
    case ExitSignal(signal, core, message) => TextShape(message);
      PairShape(Flag(core), Pair(Str(message), Unit), Boolean, TextOnly);
      PairShape(Str(signal), ChannelValue(m).payload.second, Text, PairOf(Boolean, TextOnly));
  }

  lemma ChannelValueShape(m: ChannelMessage)
    ensures Shape(ChannelValue(m), ChannelSchema)
  {
    ChannelPayloadShape(m);
    VariantShape(ChannelValue(m).tag, ChannelValue(m).payload, ChannelSchema.variants);
  }

  lemma PtyRecovered(p: PtyReqParams)
    ensures PtyOf(PtyValue(p)) == Some(p)
  {
  }

  lemma RequestRecovered(r: RequestType)
    ensures RequestOf(RequestValue(r)) == Some(r)
  {
    if r.PtyReq? {
      PtyRecovered(r.pty);
    }
  }

  lemma ParamsRecovered(p: ChannelParams)
    ensures ParamsOf(ParamsValue(p)) == Some(p)
  {
  }

  lemma ChannelMessageRecovered(m: ChannelMessage)
    ensures ChannelMessageOf(ChannelValue(m)) == Some(m)
  {
    match m
    case Open(_, p) => ParamsRecovered(p);
    case Request(r, _) => RequestRecovered(r);
    case _ =>
  }

  lemma {:induction false} SpecValuesShape(specs: seq<ForwardSpec>)
    ensures ShapeAll(SpecValues(specs), SpecSchema)
  {
    if specs != [] {
      var s := specs[0];
      SpecShape(s.bindAddr, s.bindPort, s.targetHost, s.targetPort);
      SpecValuesShape(specs[1..]);
      assert SpecValues(specs)[1..] == SpecValues(specs[1..]);
    }
  }

  const EnvSchema: Schema := PairOf(Text, TextOnly)

  lemma {:induction false} EnvValuesShape(env: seq<(string, string)>)
    ensures ShapeAll(EnvValues(env), EnvSchema)
  {
    if env != [] {
      TextShape(env[0].1);
      PairShape(Str(env[0].0), Pair(Str(env[0].1), Unit), Text, TextOnly);
      EnvValuesShape(env[1..]);
      assert EnvValues(env)[1..] == EnvValues(env[1..]);
    }
  }

  lemma SessionRequestShape(r: MasterSessionRequest)
    ensures Shape(SessionRequestValue(r), SessionRequestSchema)
  {
    SpecValuesShape(r.localForwards);
    SpecValuesShape(r.remoteForwards);
    EnvValuesShape(r.env);
    if r.pty.Some? {
      PtyShape(r.pty.value);
    }
    UnitShape();
    var v, s := SessionRequestValue(r), SessionRequestSchema;
    assert r.command.Some? ==> Shape(Str(r.command.value), Text);
    PairShape(List(EnvValues(r.env)), Unit, ListOf(EnvSchema), UnitOf);
    PairShape(OptionalPtyValue(r.pty), v.second.second.second.second.second, Optional(PtySchema),
              s.second.second.second.second.second);
    PairShape(List(SpecValues(r.remoteForwards)), v.second.second.second.second, ListOf(SpecSchema),
              s.second.second.second.second);
    PairShape(List(SpecValues(r.localForwards)), v.second.second.second, ListOf(SpecSchema), s.second.second.second);
    PairShape(Flag(r.noShell), v.second.second, Boolean, s.second.second);
    PairShape(OptionalTextValue(r.command), v.second, Optional(Text), s.second);
  }

  lemma {:induction false} SpecsRecovered(specs: seq<ForwardSpec>)
    ensures SpecsOf(SpecValues(specs)) == Some(specs)
  {
    if specs != [] {
      SpecsRecovered(specs[1..]);
      assert SpecValues(specs)[1..] == SpecValues(specs[1..]);
      assert specs == [specs[0]] + specs[1..];
    }
  }

  lemma {:induction false} EnvRecovered(env: seq<(string, string)>)
    ensures EnvOf(EnvValues(env)) == Some(env)
  {
    if env != [] {
      EnvRecovered(env[1..]);
      assert EnvValues(env)[1..] == EnvValues(env[1..]);
      assert env == [env[0]] + env[1..];
    }
  }

  lemma OptionalPtyRecovered(pty: Option<PtyReqParams>)
    ensures OptionalPtyOf(OptionalPtyValue(pty)) == Some(pty)
  {
    if pty.Some? {
      PtyRecovered(pty.value);
    }
  }

  lemma SessionRequestRecovered(r: MasterSessionRequest)
    ensures SessionRequestOf(SessionRequestValue(r)) == Some(r)
  {
    SpecsRecovered(r.localForwards);
    SpecsRecovered(r.remoteForwards);
    EnvRecovered(r.env);
    OptionalPtyRecovered(r.pty);
    assert OptionalTextOf(OptionalTextValue(r.command)) == Some(r.command);
  }

  lemma ClientValueShape(m: ClientMessage)
    ensures Shape(ClientValue(m), ClientSchema)
    ensures ClientMessageOf(ClientValue(m)) == Some(m)
  {
    match m
    case OpenSession(r) => SessionRequestShape(r); SessionRequestRecovered(r);
    case Stdin(data) => assert Shape(Raw(data), ByteVec);
    case ClientEof => UnitShape();
    case ClientWindowChange(w) => WindowShape(w);
  }

  lemma MasterValueShape(m: MasterMessage)
    ensures Shape(MasterValue(m), MasterSchema)
    ensures MasterMessageOf(MasterValue(m)) == Some(m)
  {
    match m
    case Ready => UnitShape();
    case Stdout(data) => assert Shape(Raw(data), ByteVec);
    case Stderr(data) => assert Shape(Raw(data), ByteVec);
    case MasterExitStatus(n) => assert Shape(Num(n), Varint(W32));
    case MasterEof => UnitShape();
    case MasterError(message) => assert Shape(Str(message), Text);
  }

  // ---------------------------------------------------------------------------
  // Each value of a schema is a message, so decoding fails for no other reason than bad bytes
  // ---------------------------------------------------------------------------

  lemma PairParts(v: Value, s: Schema, t: Schema)
    requires Shape(v, PairOf(s, t))
    ensures v.Pair? && Shape(v.first, s) && Shape(v.second, t)
  {
  }

  lemma LeafParts(v: Value)
    ensures Shape(v, UnitOf) ==> v == Unit
    ensures Shape(v, Text) ==> v.Str?
    ensures Shape(v, ByteVec) ==> v.Raw?
    ensures Shape(v, Boolean) ==> v.Flag?
    ensures forall w :: Shape(v, Varint(w)) ==> v.Num? && v.n < Limit(w)
  {
  }

  lemma OneFieldParts(v: Value, s: Schema)
    requires Shape(v, PairOf(s, UnitOf))
    ensures v.Pair? && Shape(v.first, s) && v.second == Unit
  {
    LeafParts(v.second);
  }

  lemma TwoFieldParts(v: Value, s: Schema, t: Schema)
    requires Shape(v, PairOf(s, PairOf(t, UnitOf)))
    ensures v.Pair? && v.second.Pair? && Shape(v.first, s) && Shape(v.second.first, t) && v.second.second == Unit
  {
    PairParts(v, s, PairOf(t, UnitOf));
    OneFieldParts(v.second, t);
  }

  lemma EnumParts(v: Value, variants: seq<Schema>)
    requires Shape(v, Enum(variants))
    ensures v.Variant? && v.tag < |variants| && Shape(v.payload, variants[v.tag])
  {
  }

  lemma UnitTagTotal(v: Value, n: nat)
    requires Shape(v, Enum(seq(n, _ => UnitOf)))
    ensures v.Variant? && v.tag < n && v.payload == Unit
  {
    LeafParts(v.payload);
  }

  lemma NumFieldTotal(v: Value, w: Width)
    requires Shape(v, PairOf(Varint(w), UnitOf))
    ensures v.Pair? && v.first.Num? && v.first.n < Limit(w) && v.second == Unit
  {
    OneFieldParts(v, Varint(w));
    LeafParts(v.first);
  }

  lemma TextFieldTotal(v: Value)
    requires Shape(v, TextOnly)
    ensures v.Pair? && v.first.Str? && v.second == Unit
  {
    OneFieldParts(v, Text);
    LeafParts(v.first);
  }

  lemma RawFieldTotal(v: Value)
    requires Shape(v, PairOf(ByteVec, UnitOf))
    ensures v.Pair? && v.first.Raw? && v.second == Unit
  {
    OneFieldParts(v, ByteVec);
    LeafParts(v.first);
  }

  lemma HostPortTotal(v: Value)
    requires Shape(v, HostPortSchema)
    ensures v.Pair? && v.first.Str? && v.second.Pair? && v.second.first.Num?
         && v.second.first.n < 0x1_0000 && v.second.second == Unit
  {
    PairParts(v, Text, PairOf(Varint(W16), UnitOf));
    LeafParts(v.first);
    NumFieldTotal(v.second, W16);
  }

  lemma ControlHandshakePreimage(tag: nat, p: Value) returns (m: ControlMessage)
    requires tag < 5 && Shape(p, ControlSchema.variants[tag])
    ensures ControlValue(m) == Variant(tag, p)
  {
    match tag
    case 0 => PairParts(p, Varint(W16), TextOnly); LeafParts(p.first); TextFieldTotal(p.second);
      m := ClientHello(p.first.n, p.second.first.s);
    case 1 => OneFieldParts(p, ByteArray(32));
      m := AuthChallenge(p.first.bytes);
    case 2 => PairParts(p, ByteVec, PairOf(ByteVec, UnitOf)); LeafParts(p.first); RawFieldTotal(p.second);
      m := AuthResponse(p.first.bytes, p.second.first.bytes);
    case 3 => UnitTagTotal(p, 2);
      m := AuthResult(if p.tag == 0 then AuthSuccess else AuthFailure);
    case 4 => PairParts(p, Enum([UnitOf, UnitOf, UnitOf, UnitOf]), TextOnly); UnitTagTotal(p.first, 4);
      TextFieldTotal(p.second);
      m := Disconnect([ByApplication, ProtocolError, AuthFailed, Timeout][p.first.tag], p.second.first.s);
  }

  lemma ControlForwardPreimage(tag: nat, p: Value) returns (m: ControlMessage)
    requires 5 <= tag < |ControlSchema.variants| && Shape(p, ControlSchema.variants[tag])
    ensures ControlValue(m) == Variant(tag, p)
  {
    match tag
    case 5 => NumFieldTotal(p, W64);
      m := KeepAlive(p.first.n);
    case 6 => NumFieldTotal(p, W64);
      m := KeepAliveAck(p.first.n);
    case 7 => HostPortTotal(p);
      m := TcpForwardRequest(p.first.s, p.second.first.n);
    case 8 => NumFieldTotal(p, W16);
      m := TcpForwardConfirm(p.first.n);
    case 9 => TextFieldTotal(p);
      m := TcpForwardFailure(p.first.s);
    case 10 => HostPortTotal(p);
      m := TcpForwardCancel(p.first.s, p.second.first.n);
  }

  lemma ControlTotal(v: Value)
    requires Shape(v, ControlSchema)
    ensures ControlMessageOf(v).Some? && ControlValue(ControlMessageOf(v).value) == v
  {
    EnumParts(v, ControlSchema.variants);
    var m: ControlMessage;
    if v.tag < 5 {
      m := ControlHandshakePreimage(v.tag, v.payload);
    } else {
      m := ControlForwardPreimage(v.tag, v.payload);
    }
    ControlMessageRecovered(m);
  }

  lemma WindowTotal(v: Value)
    requires Shape(v, WindowSchema)
    ensures WindowOf(v).Some? && WindowValue(WindowOf(v).value) == v
  {
    var n := Varint(W32);
    PairParts(v, n, WindowSchema.second);
    PairParts(v.second, n, WindowSchema.second.second);
    TwoFieldParts(v.second.second, n, n);
    LeafParts(v.first);
    LeafParts(v.second.first);
    LeafParts(v.second.second.first);
    LeafParts(v.second.second.second.first);
  }

  lemma PtyTotal(v: Value)
    requires Shape(v, PtySchema)
    ensures PtyOf(v).Some? && PtyValue(PtyOf(v).value) == v
  {
    assert Shape(v.second, WindowSchema);
    WindowTotal(v.second);
  }

  lemma SpecTotal(v: Value)
    requires Shape(v, SpecSchema)
    ensures SpecOf(v).Some? && SpecValue(SpecOf(v).value) == v
    ensures TcpipOf(v).Some? && TcpipValue(TcpipOf(v).value) == v
  {
    PairParts(v, Text, SpecSchema.second);
    PairParts(v.second, Varint(W16), HostPortSchema);
    TwoFieldParts(v.second.second, Text, Varint(W16));
    LeafParts(v.first);
    LeafParts(v.second.first);
    LeafParts(v.second.second.first);
    LeafParts(v.second.second.second.first);
  }

  lemma RequestTotal(v: Value)
    requires Shape(v, RequestSchema)
    ensures RequestOf(v).Some? && RequestValue(RequestOf(v).value) == v
  {
    EnumParts(v, RequestSchema.variants);
    var p := v.payload;
    match v.tag
    case 0 => PtyTotal(p);
    case 1 => LeafParts(p);
    case 3 => WindowTotal(p);
    case 5 => PairParts(p, Text, TextOnly); LeafParts(p.first); TextFieldTotal(p.second);
    case _ => TextFieldTotal(p);
  }

  lemma ParamsTotal(v: Value)
    requires Shape(v, Enum([UnitOf, SpecSchema, SpecSchema]))
    ensures ParamsOf(v).Some? && ParamsValue(ParamsOf(v).value) == v
  {
    if v.tag > 0 {
      assert Shape(v.payload, SpecSchema);
      SpecTotal(v.payload);
    } else {
      assert Shape(v.payload, UnitOf);
    }
  }

  lemma TagTotal(v: Value)
    requires Shape(v, Enum([UnitOf, UnitOf, UnitOf]))
    ensures TypeOf(v).Some? && TypeValue(TypeOf(v).value) == v
    ensures FailureOf(v).Some? && FailureValue(FailureOf(v).value) == v
  {
    assert Shape(v.payload, UnitOf);
  }

  lemma ChannelLifecyclePreimage(tag: nat, p: Value) returns (m: ChannelMessage)
    requires tag < 5 && Shape(p, ChannelSchema.variants[tag])
    ensures ChannelValue(m) == Variant(tag, p)
  {
    match tag
    case 0 => ChannelOpenTotal(p);
      m := Open(TypeOf(p.first).value, ParamsOf(p.second.first).value);
    case 1 => NumFieldTotal(p, W32);
      m := OpenConfirmation(p.first.n);
    case 2 => PairParts(p, Enum([UnitOf, UnitOf, UnitOf]), TextOnly); TagTotal(p.first); TextFieldTotal(p.second);
      m := OpenFailure(FailureOf(p.first).value, p.second.first.s);
    case 3 => LeafParts(p);
      m := Close;
    case 4 => LeafParts(p);
      m := Eof;
  }

  lemma ChannelTrafficPreimage(tag: nat, p: Value) returns (m: ChannelMessage)
    requires 5 <= tag < |ChannelSchema.variants| && Shape(p, ChannelSchema.variants[tag])
    ensures ChannelValue(m) == Variant(tag, p)
  {
    match tag
    case 5 => RawFieldTotal(p);
      m := Data(p.first.bytes);
    case 6 => PairParts(p, Varint(W32), PairOf(ByteVec, UnitOf)); LeafParts(p.first); RawFieldTotal(p.second);
      m := ExtendedData(p.first.n, p.second.first.bytes);
    case 7 => ChannelRequestTotal(p);
      m := Request(RequestOf(p.first).value, p.second.first.b);
    case 8 => LeafParts(p);
      m := RequestSuccess;
    case 9 => LeafParts(p);
      m := RequestFailure;
    case 10 => NumFieldTotal(p, W32);
      m := ExitStatus(p.first.n);
    case 11 => PairParts(p, Text, PairOf(Boolean, TextOnly)); LeafParts(p.first);
      PairParts(p.second, Boolean, TextOnly); LeafParts(p.second.first); TextFieldTotal(p.second.second);
      m := ExitSignal(p.first.s, p.second.first.b, p.second.second.first.s);
  }

  lemma ChannelTotal(v: Value)
    requires Shape(v, ChannelSchema)
    ensures ChannelMessageOf(v).Some? && ChannelValue(ChannelMessageOf(v).value) == v
  {
    EnumParts(v, ChannelSchema.variants);
    var m: ChannelMessage;
    if v.tag < 5 {
      m := ChannelLifecyclePreimage(v.tag, v.payload);
    } else {
      m := ChannelTrafficPreimage(v.tag, v.payload);
    }
    ChannelMessageRecovered(m);
  }

  lemma ChannelOpenTotal(p: Value)
    requires Shape(p, ChannelSchema.variants[0])
    ensures p.Pair? && p.second.Pair? && p.second.second == Unit
    ensures TypeOf(p.first).Some? && TypeValue(TypeOf(p.first).value) == p.first
    ensures ParamsOf(p.second.first).Some? && ParamsValue(ParamsOf(p.second.first).value) == p.second.first
  {
    TwoFieldParts(p, Enum([UnitOf, UnitOf, UnitOf]), Enum([UnitOf, SpecSchema, SpecSchema]));
    TagTotal(p.first);
    ParamsTotal(p.second.first);
  }

  lemma ChannelRequestTotal(p: Value)
    requires Shape(p, PairOf(RequestSchema, PairOf(Boolean, UnitOf)))
    ensures p.Pair? && p.second.Pair? && p.second.first.Flag? && p.second.second == Unit
    ensures RequestOf(p.first).Some? && RequestValue(RequestOf(p.first).value) == p.first
  {
    TwoFieldParts(p, RequestSchema, Boolean);
    RequestTotal(p.first);
    LeafParts(p.second.first);
  }

  lemma {:induction false} SpecsTotal(vs: seq<Value>)
    requires ShapeAll(vs, SpecSchema)
    ensures SpecsOf(vs).Some? && SpecValues(SpecsOf(vs).value) == vs
  {
    if vs != [] {
      SpecTotal(vs[0]);
      SpecsTotal(vs[1..]);
      assert SpecsOf(vs).value[1..] == SpecsOf(vs[1..]).value;
    }
  }

  lemma {:induction false} EnvTotal(vs: seq<Value>)
    requires ShapeAll(vs, EnvSchema)
    ensures EnvOf(vs).Some? && EnvValues(EnvOf(vs).value) == vs
  {
    if vs != [] {
      assert Shape(vs[0], EnvSchema);
      TwoFieldParts(vs[0], Text, Text);
      LeafParts(vs[0].first);
      LeafParts(vs[0].second.first);
      EnvTotal(vs[1..]);
      assert EnvOf(vs).value[1..] == EnvOf(vs[1..]).value;
    }
  }

  lemma SessionRequestParts(v: Value)
    requires Shape(v, SessionRequestSchema)
    ensures v.Pair? && v.second.Pair? && v.second.second.Pair? && v.second.second.second.Pair?
         && v.second.second.second.second.Pair? && v.second.second.second.second.second.Pair?
    ensures Shape(v.first, Optional(Text)) && Shape(v.second.first, Boolean)
         && Shape(v.second.second.first, ListOf(SpecSchema))
         && Shape(v.second.second.second.first, ListOf(SpecSchema))
         && Shape(v.second.second.second.second.first, Optional(PtySchema))
         && Shape(v.second.second.second.second.second.first, ListOf(EnvSchema))
         && v.second.second.second.second.second.second == Unit
  {
    var s := SessionRequestSchema;
    assert Shape(v.second, s.second);
    assert Shape(v.second.second, s.second.second);
    assert Shape(v.second.second.second, s.second.second.second);
    assert Shape(v.second.second.second.second, s.second.second.second.second);
    assert Shape(v.second.second.second.second.second, s.second.second.second.second.second);
    assert Shape(v.second.second.second.second.second.second, UnitOf);
  }

  lemma OptionsTotal(v: Value)
    ensures Shape(v, Optional(Text)) ==> OptionalTextOf(v).Some? && OptionalTextValue(OptionalTextOf(v).value) == v
    ensures Shape(v, Optional(PtySchema)) ==> OptionalPtyOf(v).Some? && OptionalPtyValue(OptionalPtyOf(v).value) == v
  {
    if v.Present? {
      if Shape(v, Optional(Text)) {
        assert Shape(v.v, Text);
      }
      if Shape(v, Optional(PtySchema)) {
        assert Shape(v.v, PtySchema);
        PtyTotal(v.v);
      }
    }
  }

  lemma SessionRequestTotal(v: Value)
    requires Shape(v, SessionRequestSchema)
    ensures SessionRequestOf(v).Some? && SessionRequestValue(SessionRequestOf(v).value) == v
  {
    SessionRequestParts(v);
    OptionsTotal(v.first);
    var locals := v.second.second;
    var remotes := locals.second;
    var pty := remotes.second;
    SpecsTotal(locals.first.vs);
    SpecsTotal(remotes.first.vs);
    OptionsTotal(pty.first);
    EnvTotal(pty.second.first.vs);
    var r := MasterSessionRequest(OptionalTextOf(v.first).value, v.second.first.b, SpecsOf(locals.first.vs).value,
                                  SpecsOf(remotes.first.vs).value, OptionalPtyOf(pty.first).value,
                                  EnvOf(pty.second.first.vs).value);
    assert SessionRequestValue(r) == v;
    SessionRequestRecovered(r);
  }

  lemma ClientTotal(v: Value)
    requires Shape(v, ClientSchema)
    ensures ClientMessageOf(v).Some? && ClientValue(ClientMessageOf(v).value) == v
  {
    assert Shape(v.payload, ClientSchema.variants[v.tag]);
    match v.tag
    case 0 => SessionRequestTotal(v.payload);
    case 3 => WindowTotal(v.payload);
    case _ =>
  }

  lemma MasterTotal(v: Value)
    requires Shape(v, MasterSchema)
    ensures MasterMessageOf(v).Some? && MasterValue(MasterMessageOf(v).value) == v
  {
    assert Shape(v.payload, MasterSchema.variants[v.tag]);
  }
}
