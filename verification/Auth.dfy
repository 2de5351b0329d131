/** Authentication: the signed preimage, both parties' exchanges on the control stream, and what an
    accepted login says about the client. Hashing and signatures are parameters. */
module Auth {
  import opened Wrappers
  import opened Messages
  import AuthorizedKeys
  import Codec
  import Utf8

  type Bytes32 = Nonce

  /** The cryptography the parties use; `keyForm` and `sigForm` are the checks on encoded lengths. */
  datatype Crypto = Crypto(
    hash: Bytes -> Bytes,
    publicKey: Bytes -> Bytes,
    sign: (Bytes, Bytes) -> Bytes,
    keyForm: Bytes -> bool,
    sigForm: Bytes -> bool,
    verify: (Bytes, Bytes, Bytes) -> bool)

  // ---------------------------------------------------------------------------
  // What is signed
  // ---------------------------------------------------------------------------

  /** `sqsh-auth-challenge-v1`. */
  const DOMAIN: Bytes := [
    0x73, 0x71, 0x73, 0x68, 0x2D, 0x61, 0x75, 0x74, 0x68, 0x2D, 0x63, 0x68, 0x61, 0x6C, 0x6C, 0x65, 0x6E, 0x67, 0x65,
    0x2D, 0x76, 0x31]

  function LittleEndian16(n: U16): (bytes: Bytes)
    ensures |bytes| == 2
  {
    [n % 0x100, n / 0x100]
  }

  predicate NameFits(username: string) {
    |Utf8.Encode(username)| < 0x1_0000
  }

  function Preimage(nonce: Bytes32, fingerprint: Bytes32, username: string): Bytes
    requires NameFits(username)
  {
    DOMAIN + nonce + fingerprint + LittleEndian16(|Utf8.Encode(username)|) + Utf8.Encode(username)
  }

  /** Nothing of what is signed can be traded for anything else. */
  lemma PreimageInjective(n: Bytes32, f: Bytes32, u: string, m: Bytes32, g: Bytes32, v: string)
    requires NameFits(u) && NameFits(v) && Preimage(n, f, u) == Preimage(m, g, v)
    ensures n == m && f == g && u == v
  {
    var p, q := Preimage(n, f, u), Preimage(m, g, v);
    var d := |DOMAIN|;
    assert p[d..d + 32] == n && q[d..d + 32] == m;
    assert p[d + 32..d + 64] == f && q[d + 32..d + 64] == g;
    assert p[d + 66..] == Utf8.Encode(u) && q[d + 66..] == Utf8.Encode(v);
    Utf8.DecodeEncode(u);
    Utf8.DecodeEncode(v);
  }

  /** What is signed, position by position: 22 bytes that name the purpose, 32 of the nonce, 32 of the
      fingerprint, two with the length of the name, the low one first, and the name. */
  lemma PreimageLayout(nonce: Bytes32, fingerprint: Bytes32, username: string)
    requires NameFits(username)
    ensures var p, name := Preimage(nonce, fingerprint, username), Utf8.Encode(username);
            && |p| == 88 + |name| && p[22..54] == nonce && p[54..86] == fingerprint
            && p[86] as int + 256 * p[87] as int == |name| && p[88..] == name
            && forall i :: 0 <= i < 22 ==> p[i] == PURPOSE[i] as int
  {
    PurposeBytes();
    assert |DOMAIN| == 22;
  }

  const PURPOSE: string := "sqsh-auth-challenge-v1"

  lemma PurposeBytes()
    ensures |PURPOSE| == |DOMAIN| && forall i :: 0 <= i < |DOMAIN| ==> DOMAIN[i] == PURPOSE[i] as int
  {
  }

  class Hasher {
    var fed: Bytes

    constructor ()
      ensures fed == []
    {
      fed := [];
    }

    method Update(bytes: Bytes)
      modifies this
      ensures fed == old(fed) + bytes
    {
      fed := fed + bytes;
    }
  }

  method BuildChallengePayload(crypto: Crypto, nonce: Bytes32, fingerprint: Bytes32, username: string)
    returns (payload: Bytes)
    requires NameFits(username)
    ensures payload == crypto.hash(Preimage(nonce, fingerprint, username))
  {
    var name := Utf8.Encode(username);
    var hasher := new Hasher();
    hasher.Update(DOMAIN);
    hasher.Update(nonce);
    hasher.Update(fingerprint);
    hasher.Update(LittleEndian16(|name|));
    hasher.Update(name);
    assert hasher.fed == Preimage(nonce, fingerprint, username);
    payload := crypto.hash(hasher.fed);
  }

  // ---------------------------------------------------------------------------
  // Server
  // ---------------------------------------------------------------------------

  datatype Lookup = NoUser | User(keyFile: Option<string>) | LookupFailed

  datatype AuthError =
    | StreamClosed | VersionMismatch | Unexpected | LookupError | Refused | MalformedKey | MalformedSignature
    | BadSignature | NameTooLong | NoIdentity | Disconnected

  /** The server's side of one connection: who its users are, its nonce and its certificate. The stream
      takes `sends` frames and then fails. */
  datatype Server = Server(users: string -> Lookup, nonce: Bytes32, fingerprint: Bytes32, wording: U16 -> string,
                           sends: nat)

  function ListedKeys(l: Lookup): seq<Bytes> {
    if l.User? && l.keyFile.Some? then AuthorizedKeys.ParseKeys(l.keyFile.value) else []
  }

  /** What a message that arrived in a frame within the cap can be. */
  ghost predicate Receivable(m: ControlMessage) {
    exists payload: Bytes :: |payload| <= Codec.MAX_FRAME_SIZE && Codec.FromBytes(Codec.CONTROL, payload) == Ok(m)
  }

  lemma ReceivedNameFits(version: U16, username: string)
    requires Receivable(ClientHello(version, username))
    ensures NameFits(username)
  {
    var payload: Bytes :| |payload| <= Codec.MAX_FRAME_SIZE
                          && Codec.FromBytes(Codec.CONTROL, payload) == Ok(ClientHello(version, username));
    Codec.UsernameFits(payload, version, username);
  }

  /** The frame, if the stream takes it. */
  function Sent(ok: bool, m: ControlMessage): seq<ControlMessage> {
    if ok then [m] else []
  }

  /** A refusal stands whether or not it can be sent; a success that cannot be sent is an error. */
  function Decide(s: Server, crypto: Crypto, username: string, pubkey: Bytes, signature: Bytes)
    : (Result<string, AuthError>, seq<ControlMessage>)
    requires NameFits(username)
  {
    if pubkey !in ListedKeys(s.users(username)) then (Err(Refused), Sent(s.sends >= 2, AuthResult(AuthFailure)))
    else if !crypto.keyForm(pubkey) then (Err(MalformedKey), [])
    else if !crypto.sigForm(signature) then (Err(MalformedSignature), [])
    else if !crypto.verify(pubkey, crypto.hash(Preimage(s.nonce, s.fingerprint, username)), signature) then
      (Err(BadSignature), Sent(s.sends >= 2, AuthResult(AuthFailure)))
    else (if s.sends >= 2 then Ok(username) else Err(StreamClosed), Sent(s.sends >= 2, AuthResult(AuthSuccess)))
  }

  /** The outcome and the frames sent, when the client's frames are `incoming` and then its stream ends. */
  function ServerRun(s: Server, crypto: Crypto, incoming: seq<ControlMessage>)
    : (Result<string, AuthError>, seq<ControlMessage>)
  {
    if incoming == [] then (Err(StreamClosed), [])
    else if !incoming[0].ClientHello? then (Err(Unexpected), [])
    else if incoming[0].version != PROTOCOL_VERSION then
      (Err(VersionMismatch), Sent(s.sends >= 1, Disconnect(ProtocolError, s.wording(incoming[0].version))))
    else if s.users(incoming[0].username).LookupFailed? then (Err(LookupError), [])
    else if s.sends == 0 then (Err(StreamClosed), [])
    else if |incoming| == 1 then (Err(StreamClosed), [AuthChallenge(s.nonce)])
    else if !incoming[1].AuthResponse? then (Err(Unexpected), [AuthChallenge(s.nonce)])
    else if !NameFits(incoming[0].username) then (Err(NameTooLong), [AuthChallenge(s.nonce)])
    else
      var (r, last) := Decide(s, crypto, incoming[0].username, incoming[1].pubkey, incoming[1].signature);
      (r, [AuthChallenge(s.nonce)] + last)
  }

  lemma HelloFits(incoming: seq<ControlMessage>)
    requires forall m <- incoming :: Receivable(m)
    ensures incoming != [] && incoming[0].ClientHello? ==> NameFits(incoming[0].username)
  {
    if incoming != [] && incoming[0].ClientHello? {
      assert incoming[0] in incoming && incoming[0] == ClientHello(incoming[0].version, incoming[0].username);
      ReceivedNameFits(incoming[0].version, incoming[0].username);
    }
  }

  /** The last step: the key must be listed, and its signature must verify. */
  method VerifyResponse(s: Server, crypto: Crypto, username: string, pubkey: Bytes, signature: Bytes)
    returns (r: Result<string, AuthError>, last: seq<ControlMessage>)
    requires NameFits(username)
    ensures (r, last) == Decide(s, crypto, username, pubkey, signature)
  {
    var user := s.users(username);
    var authorized := ListedKeys(user);
    if user.NoUser? || pubkey !in authorized {
      return Err(Refused), Sent(s.sends >= 2, AuthResult(AuthFailure));
    }
    var payload := BuildChallengePayload(crypto, s.nonce, s.fingerprint, username);
    if !crypto.keyForm(pubkey) {
      return Err(MalformedKey), [];
    }
    if !crypto.sigForm(signature) {
      return Err(MalformedSignature), [];
    }
    if !crypto.verify(pubkey, payload, signature) {
      return Err(BadSignature), Sent(s.sends >= 2, AuthResult(AuthFailure));
    }
    if s.sends < 2 {
      return Err(StreamClosed), [];
    }
    return Ok(username), [AuthResult(AuthSuccess)];
  }

  /** The name length check of the preimage cannot fail here, because the name arrived in a frame. */
  method ServerAuthenticate(s: Server, crypto: Crypto, incoming: seq<ControlMessage>)
    returns (r: Result<string, AuthError>, sent: seq<ControlMessage>)
    requires forall m <- incoming :: Receivable(m)
    ensures (r, sent) == ServerRun(s, crypto, incoming)
    ensures r != Err(NameTooLong)
  {
    HelloFits(incoming);
    if incoming == [] {
      return Err(StreamClosed), [];
    }
    var hello := incoming[0];
    if !hello.ClientHello? {
      return Err(Unexpected), [];
    }
    if hello.version != PROTOCOL_VERSION {
      return Err(VersionMismatch), Sent(s.sends >= 1, Disconnect(ProtocolError, s.wording(hello.version)));
    }
    if s.users(hello.username).LookupFailed? {
      return Err(LookupError), [];
    }
    if s.sends == 0 {
      return Err(StreamClosed), [];
    }
    sent := [AuthChallenge(s.nonce)];
    if |incoming| == 1 {
      return Err(StreamClosed), sent;
    }
    if !incoming[1].AuthResponse? {
      return Err(Unexpected), sent;
    }
    var last;
    r, last := VerifyResponse(s, crypto, hello.username, incoming[1].pubkey, incoming[1].signature);
    sent := sent + last;
  }

  /** Accepting a login: a listed key, and a signature under it over this server's nonce, this server's
      certificate and the name that is accepted. */
  predicate Proven(s: Server, crypto: Crypto, incoming: seq<ControlMessage>, username: string) {
    && |incoming| >= 2 && incoming[0] == ClientHello(PROTOCOL_VERSION, username) && incoming[1].AuthResponse?
    && NameFits(username) && s.sends >= 2
    && s.users(username).User? && incoming[1].pubkey in ListedKeys(s.users(username))
    && crypto.keyForm(incoming[1].pubkey) && crypto.sigForm(incoming[1].signature)
    && crypto.verify(incoming[1].pubkey, crypto.hash(Preimage(s.nonce, s.fingerprint, username)), incoming[1].signature)
  }

  lemma AcceptedExactly(s: Server, crypto: Crypto, incoming: seq<ControlMessage>, username: string)
    ensures ServerRun(s, crypto, incoming).0 == Ok(username) <==> Proven(s, crypto, incoming, username)
    ensures AuthResult(AuthSuccess) in ServerRun(s, crypto, incoming).1 <==> ServerRun(s, crypto, incoming).0.Ok?
  {
  }

  /** A failure is sent exactly to a client that went through the exchange with a name that fits and
      without a listed key, or with one and a well-formed signature that does not verify; and another
      version is turned away before a challenge. */
  lemma RefusedExactly(s: Server, crypto: Crypto, incoming: seq<ControlMessage>)
    ensures AuthResult(AuthFailure) in ServerRun(s, crypto, incoming).1 <==>
              && |incoming| >= 2 && incoming[0].ClientHello? && incoming[0].version == PROTOCOL_VERSION
              && incoming[1].AuthResponse? && s.sends >= 2 && NameFits(incoming[0].username)
              && !s.users(incoming[0].username).LookupFailed?
              && (incoming[1].pubkey in ListedKeys(s.users(incoming[0].username)) ==>
                    && crypto.keyForm(incoming[1].pubkey) && crypto.sigForm(incoming[1].signature)
                    && !crypto.verify(incoming[1].pubkey,
                                      crypto.hash(Preimage(s.nonce, s.fingerprint, incoming[0].username)),
                                      incoming[1].signature))
    ensures AuthChallenge(s.nonce) in ServerRun(s, crypto, incoming).1 <==>
              && incoming != [] && incoming[0].ClientHello? && incoming[0].version == PROTOCOL_VERSION && s.sends >= 1
              && !s.users(incoming[0].username).LookupFailed?
    ensures incoming != [] && incoming[0].ClientHello? && incoming[0].version != PROTOCOL_VERSION && s.sends >= 1 ==>
              ServerRun(s, crypto, incoming).1 == [Disconnect(ProtocolError, s.wording(incoming[0].version))]
  {
  }

  /** A client without a listed key cannot tell a missing user from one it may not log in as. */
  lemma NoEnumeration(s: Server, t: Server, crypto: Crypto, incoming: seq<ControlMessage>)
    requires |incoming| == 2 && incoming[0].ClientHello? && incoming[1].AuthResponse?
    requires s.nonce == t.nonce && s.wording == t.wording && s.sends == t.sends && NameFits(incoming[0].username)
    requires var u := incoming[0].username;
             && s.users(u).NoUser? && t.users(u).User? && incoming[1].pubkey !in ListedKeys(t.users(u))
    ensures ServerRun(s, crypto, incoming) == ServerRun(t, crypto, incoming)
  {
  }

  // ---------------------------------------------------------------------------
  // Client
  // ---------------------------------------------------------------------------

  /** The client's side: the certificate it saw, and its identity file, if that can be read. The stream
      takes `sends` frames and then fails. */
  datatype Client = Client(username: string, identity: Option<Bytes>, fingerprint: Bytes32, sends: nat)

  predicate HasSeed(c: Client) {
    c.identity.Some? && |c.identity.value| == 32
  }

  predicate Challenged(c: Client, incoming: seq<ControlMessage>) {
    c.sends >= 1 && incoming != [] && incoming[0].AuthChallenge? && NameFits(c.username) && HasSeed(c)
  }

  function Response(c: Client, crypto: Crypto, nonce: Bytes32): ControlMessage
    requires NameFits(c.username) && HasSeed(c)
  {
    var seed := c.identity.value;
    AuthResponse(crypto.publicKey(seed), crypto.sign(seed, crypto.hash(Preimage(nonce, c.fingerprint, c.username))))
  }

  /** The last message decides. */
  function Outcome(rest: seq<ControlMessage>): Result<(), AuthError> {
    if rest == [] then Err(StreamClosed)
    else if rest[0] == AuthResult(AuthSuccess) then Ok(())
    else if rest[0] == AuthResult(AuthFailure) then Err(Refused)
    else Err(Unexpected)
  }

  function ClientRun(c: Client, crypto: Crypto, incoming: seq<ControlMessage>)
    : (Result<(), AuthError>, seq<ControlMessage>)
  {
    var hello := ClientHello(PROTOCOL_VERSION, c.username);
    if c.sends == 0 then (Err(StreamClosed), [])
    else if incoming == [] then (Err(StreamClosed), [hello])
    else if incoming[0].Disconnect? then (Err(Disconnected), [hello])
    else if !incoming[0].AuthChallenge? then (Err(Unexpected), [hello])
    else if !NameFits(c.username) then (Err(NameTooLong), [hello])
    else if !HasSeed(c) then (Err(NoIdentity), [hello])
    else if c.sends == 1 then (Err(StreamClosed), [hello])
    else
      (Outcome(incoming[1..]), [hello, Response(c, crypto, incoming[0].nonce)])
  }

  /** A login succeeds for the client exactly when its two frames can be sent, its name fits, its identity
      is a seed of 32 bytes, and the server's first two messages are a challenge and a success; it is
      refused exactly when the second is a failure instead. */
  lemma LoggedInExactly(c: Client, crypto: Crypto, incoming: seq<ControlMessage>)
    ensures ClientRun(c, crypto, incoming).0.Ok? <==>
              && c.sends >= 2 && NameFits(c.username) && c.identity.Some? && |c.identity.value| == 32
              && |incoming| >= 2 && incoming[0].AuthChallenge? && incoming[1] == AuthResult(AuthSuccess)
    ensures ClientRun(c, crypto, incoming).0 == Err(Refused) <==>
              && c.sends >= 2 && NameFits(c.username) && c.identity.Some? && |c.identity.value| == 32
              && |incoming| >= 2 && incoming[0].AuthChallenge? && incoming[1] == AuthResult(AuthFailure)
    ensures ClientRun(c, crypto, incoming).0 == Err(Disconnected) <==>
              c.sends >= 1 && incoming != [] && incoming[0].Disconnect?
  {
  }

  /** The signature leaves the client only in answer to a challenge, over that challenge's nonce. */
  lemma SignsWhenChallenged(c: Client, crypto: Crypto, incoming: seq<ControlMessage>)
    ensures var sent := ClientRun(c, crypto, incoming).1;
            && (c.sends == 0 <==> sent == [])
            && (sent != [] ==> sent[0] == ClientHello(PROTOCOL_VERSION, c.username))
            && (|sent| >= 2 <==> c.sends >= 2 && Challenged(c, incoming))
            && (|sent| >= 2 ==>
                  sent[1..] == [AuthResponse(crypto.publicKey(c.identity.value),
                                             crypto.sign(c.identity.value,
                                                         crypto.hash(Preimage(incoming[0].nonce, c.fingerprint, c.username))))])
  {
  }

  method ClientAuthenticate(c: Client, crypto: Crypto, incoming: seq<ControlMessage>)
    returns (r: Result<(), AuthError>, sent: seq<ControlMessage>)
    ensures (r, sent) == ClientRun(c, crypto, incoming)
    ensures r.Ok? <==>
              && c.sends >= 2 && NameFits(c.username) && c.identity.Some? && |c.identity.value| == 32
              && |incoming| >= 2 && incoming[0].AuthChallenge? && incoming[1] == AuthResult(AuthSuccess)
    ensures r == Err(Refused) <==>
              && c.sends >= 2 && NameFits(c.username) && c.identity.Some? && |c.identity.value| == 32
              && |incoming| >= 2 && incoming[0].AuthChallenge? && incoming[1] == AuthResult(AuthFailure)
  {
    LoggedInExactly(c, crypto, incoming);
    if c.sends == 0 {
      return Err(StreamClosed), [];
    }
    sent := [ClientHello(PROTOCOL_VERSION, c.username)];
    if incoming == [] {
      return Err(StreamClosed), sent;
    }
    match incoming[0]
    case AuthChallenge(nonce) =>
      if !NameFits(c.username) {
        return Err(NameTooLong), sent;
      }
      var payload := BuildChallengePayload(crypto, nonce, c.fingerprint, c.username);
      if c.identity.None? || |c.identity.value| != 32 {
        return Err(NoIdentity), sent;
      }
      var seed := c.identity.value;
      if c.sends == 1 {
        return Err(StreamClosed), sent;
      }
      sent := sent + [AuthResponse(crypto.publicKey(seed), crypto.sign(seed, payload))];
      assert sent == [ClientHello(PROTOCOL_VERSION, c.username), Response(c, crypto, nonce)];
      r := Outcome(incoming[1..]);
    case Disconnect(_, _) => return Err(Disconnected), sent;
    case _ => return Err(Unexpected), sent;
  }

  // ---------------------------------------------------------------------------
  // Both together
  // ---------------------------------------------------------------------------

  /** Signing and verifying fit together. */
  ghost predicate Works(crypto: Crypto) {
    forall seed, m :: |seed| == 32 ==>
      && crypto.keyForm(crypto.publicKey(seed)) && crypto.sigForm(crypto.sign(seed, m))
      && crypto.verify(crypto.publicKey(seed), m, crypto.sign(seed, m))
  }

  /** Every frame that either side sent has arrived at the other, and neither has more to send. */
  ghost predicate Delivered(s: Server, c: Client, crypto: Crypto, toServer: seq<ControlMessage>, toClient: seq<ControlMessage>) {
    toClient == ServerRun(s, crypto, toServer).1 && toServer == ClientRun(c, crypto, toClient).1
  }

  /** An honest client whose key is in the user's file, on a connection whose certificate both sides saw,
      ends logged in on both sides. */
  lemma HonestLogin(s: Server, c: Client, crypto: Crypto, toServer: seq<ControlMessage>, toClient: seq<ControlMessage>)
    requires Works(crypto) && Delivered(s, c, crypto, toServer, toClient)
    requires NameFits(c.username) && HasSeed(c) && c.fingerprint == s.fingerprint && c.sends >= 2 && s.sends >= 2
    requires crypto.publicKey(c.identity.value) in ListedKeys(s.users(c.username))
    ensures ServerRun(s, crypto, toServer).0 == Ok(c.username) && ClientRun(c, crypto, toClient).0 == Ok(())
  {
    assert toServer[0] == ClientHello(PROTOCOL_VERSION, c.username);
    assert toClient[0] == AuthChallenge(s.nonce);
    assert toServer == [ClientHello(PROTOCOL_VERSION, c.username), Response(c, crypto, s.nonce)];
    assert toServer[1] == Response(c, crypto, s.nonce);
    assert toClient == [AuthChallenge(s.nonce)] + [AuthResult(AuthSuccess)];
    assert toClient[1..] == [AuthResult(AuthSuccess)];
  }

  /** The key file may hold anything besides the key's own line. */
  lemma ListedFromFile(s: Server, username: string, items: seq<AuthorizedKeys.Item>, i: nat)
    requires forall j :: 0 <= j < |items| ==> AuthorizedKeys.ItemOk(items[j])
    requires s.users(username) == User(Some(AuthorizedKeys.Render(items)))
    requires i < |items| && items[i].Key?
    ensures items[i].key in ListedKeys(s.users(username))
  {
    AuthorizedKeys.FileRoundTrip(items);
    KeyAmong(items, i);
  }

  lemma {:induction false} KeyAmong(items: seq<AuthorizedKeys.Item>, i: nat)
    requires i < |items| && items[i].Key?
    ensures items[i].key in AuthorizedKeys.Keys(items)
    decreases i
  {
    if i > 0 {
      KeyAmong(items[1..], i - 1);
    }
  }

  // ---------------------------------------------------------------------------
  // Runs with any number of connections
  // ---------------------------------------------------------------------------

  /** One party's part of one connection; whoever carries the frames may deliver what they like. */
  datatype Party =
    | AsClient(client: Client, received: seq<ControlMessage>)
    | AsServer(server: Server, received: seq<ControlMessage>)

  /** The key and the payload of the signature that a client made. */
  function Signed(p: Party, crypto: Crypto): Option<(Bytes, Bytes)> {
    if p.AsClient? && Challenged(p.client, p.received) then
      Some((crypto.publicKey(p.client.identity.value),
            crypto.hash(Preimage(p.received[0].nonce, p.client.fingerprint, p.client.username))))
    else None
  }

  /** What a server of the run received in reply to its challenge. */
  predicate Answered(p: Party, pk: Bytes, sig: Bytes) {
    p.AsServer? && |p.received| >= 2 && p.received[1] == AuthResponse(pk, sig)
  }

  ghost predicate SignedInRun(run: seq<Party>, crypto: Crypto, pk: Bytes, m: Bytes) {
    exists i :: 0 <= i < |run| && Signed(run[i], crypto) == Some((pk, m))
  }

  /** No forgery: under these keys, what a server is sent verifies only for what a client of the run
      signed. */
  ghost predicate Unforged(crypto: Crypto, honest: set<Bytes>, run: seq<Party>) {
    forall j, pk, m, sig :: 0 <= j < |run| && pk in honest && Answered(run[j], pk, sig) && crypto.verify(pk, m, sig) ==>
      SignedInRun(run, crypto, pk, m)
  }

  /** What a party of the run hashes: its own nonce, certificate and user name. */
  ghost predicate Hashes(p: Party, preimage: Bytes) {
    match p
    case AsClient(c, received) =>
      Challenged(c, received) && preimage == Preimage(received[0].nonce, c.fingerprint, c.username)
    case AsServer(s, received) =>
      && received != [] && received[0].ClientHello? && NameFits(received[0].username)
      && preimage == Preimage(s.nonce, s.fingerprint, received[0].username)
  }

  /** No two different preimages hashed in the run have the same hash. */
  ghost predicate CollisionFree(crypto: Crypto, run: seq<Party>) {
    forall i, j, a, b :: 0 <= i < |run| && 0 <= j < |run| && Hashes(run[i], a) && Hashes(run[j], b) ==>
      (crypto.hash(a) == crypto.hash(b) ==> a == b)
  }

  /** The client that a login stands for: the same key, user and certificate, challenged with the nonce
      of exactly this connection. */
  ghost predicate Counterpart(p: Party, s: Server, crypto: Crypto, username: string, pubkey: Bytes) {
    && p.AsClient? && Challenged(p.client, p.received)
    && crypto.publicKey(p.client.identity.value) == pubkey
    && p.client.username == username && p.client.fingerprint == s.fingerprint
    && p.received[0] == AuthChallenge(s.nonce)
  }

  /** A login at a server of the run, with an honest key. */
  ghost predicate LoggedIn(p: Party, crypto: Crypto, honest: set<Bytes>, username: string, pk: Bytes) {
    && p.AsServer? && |p.received| >= 2 && p.received[1].AuthResponse? && p.received[1].pubkey == pk && pk in honest
    && ServerRun(p.server, crypto, p.received).0 == Ok(username)
  }

  /** Agreement: behind a login with an honest key stands a client of the run that meant it. */
  lemma Agreement(run: seq<Party>, crypto: Crypto, honest: set<Bytes>, j: nat, username: string, pk: Bytes)
    returns (i: nat)
    requires Unforged(crypto, honest, run) && CollisionFree(crypto, run)
    requires j < |run| && LoggedIn(run[j], crypto, honest, username, pk)
    ensures i < |run| && Counterpart(run[i], run[j].server, crypto, username, pk)
  {
    var s, received := run[j].server, run[j].received;
    AcceptedExactly(s, crypto, received, username);
    var sig := received[1].signature;
    var payload := crypto.hash(Preimage(s.nonce, s.fingerprint, username));
    assert received[1] == AuthResponse(pk, sig) && Answered(run[j], pk, sig);
    assert crypto.verify(pk, payload, sig) && SignedInRun(run, crypto, pk, payload);
    i :| 0 <= i < |run| && Signed(run[i], crypto) == Some((pk, payload));
    var c := run[i].client;
    assert Hashes(run[i], Preimage(run[i].received[0].nonce, c.fingerprint, c.username));
    assert Hashes(run[j], Preimage(s.nonce, s.fingerprint, username));
    PreimageInjective(run[i].received[0].nonce, c.fingerprint, c.username, s.nonce, s.fingerprint, username);
  }

  /** Logins at servers with different nonces stand for different client connections: no signature is
      good twice. */
  lemma NoReplay(run: seq<Party>, crypto: Crypto, honest: set<Bytes>, j: nat, k: nat, u: string, v: string,
                 pk: Bytes, qk: Bytes)
    requires Unforged(crypto, honest, run) && CollisionFree(crypto, run)
    requires j < |run| && LoggedIn(run[j], crypto, honest, u, pk)
    requires k < |run| && LoggedIn(run[k], crypto, honest, v, qk)
    requires run[j].server.nonce != run[k].server.nonce
    ensures exists a: nat, b: nat :: a < |run| && b < |run| && a != b
              && Counterpart(run[a], run[j].server, crypto, u, pk) && Counterpart(run[b], run[k].server, crypto, v, qk)
  {
    var a := Agreement(run, crypto, honest, j, u, pk);
    var b := Agreement(run, crypto, honest, k, v, qk);
    assert AuthChallenge(run[j].server.nonce) != AuthChallenge(run[k].server.nonce);
  }
}
