# squish, verified

A Dafny model of squish, an SSH-like system over QUIC, and proofs about it. It covers the message
protocol, the concurrent loops of client master and server, and the hand-written parsers. Quinn, TLS,
sockets, terminals, processes and cryptography appear as parameters: byte sequences, chosen
interleavings, outcomes of sends and writes, and functions. `dafny verify dfyconfig.toml` checks it all.

How concurrency is modelled: an awaited step is one transition. A `select!` loop consumes a sequence of
events, each of which names the arm taken and what the outside world did, and every theorem holds for all
such sequences. Two-party systems (`ForwardProtocol`, `Relay`, `Auth`) are transition systems over
schedules in which any party may move next.

| file | models |
|---|---|
| `Wrappers`, `Text`, `Utf8` | results, machine integers, the parts of Rust's string library the parsers use |
| `WireFormat` | the bytes of every message, written out |
| `Postcard`, `Messages`, `Codec` | varints, enums and sequences of postcard; the four message types; frames and streams |
| `ServerConnection` | the server's connection loop: forward table, channel permits, replies |
| `ForwardProtocol` | remote forwarding: any number of master clients, the shared table, the control mutex, the FIFO control stream and the server, as one transition system |
| `ForwardMatching` | exactly which workloads keep the two forward tables agreed, and the streams of each forward going to its own target |
| `MasterLoop` | the ControlMaster's client counter and idle shutdown, with time |
| `Relay`, `Pumps` | chains of relays, and each relay loop against the contract that a chain needs of its nodes |
| `EndToEnd` | the real loops in chains: TCP forwarding, a terminal session through the ControlMaster, SFTP |
| `Subsystem`, `Session`, `SessionSetup` | the server's subsystem drain, its request phase and terminal pump, and both ends of session setup |
| `HostPatterns`, `Tokenizer`, `SshConfig`, `ConfigLines` | the ssh_config engine, and what its lines mean under each keyword |
| `TreeCopy` | recursive upload and download |
| `KnownHosts` | the trust-on-first-use store, over runs of checks, saves and reloads |
| `Base64`, `AuthorizedKeys`, `Auth` | key files, and authentication on both sides |

Where the model shows that a promise holds only under a condition, a theorem gives the condition, for all
inputs:

- A key that is requested again is refused, and the cleanup drops the entry of the forward that is served
  or is still being asked for (control.rs:201-204). `AgreementBreaksExactly` says which step breaks the
  agreement of the two tables, and `AgreementExactly` for which workloads some schedule does, under any
  policy and limit: those with two requests for one key such that all keys before them are allowed and fit
  the limit together. Two clients that start with one key are always such a workload, also when the server
  allows it to neither (`SameFirstKey`); `RepeatedKeyBreaksAgreement` is a run.
- A forwarded stream is matched by port alone (forward.rs:141), and the spec of whoever registered first
  stands for a key (control.rs:179-187), so a stream can reach another forward's target or none.
  `RoutingExactly` says for which workloads some schedule does that, again under any policy and limit:
  those with two requests for one port of which one can be granted when the other one's task comes to it.
  Two runs of it are `SharedPortMisroutes`, where both forwards are live, and `RacedRegistrationMisroutes`,
  where the tables agree, also with equal keys.
- Where all keys asked for are allowed and fit the limit together, these conditions are that some key, or
  some port, is asked for twice: `WithRoom`.
- Trust on first use holds over every run whose restarts find the host on disk as it is in memory and
  whose pins repeat what is there (`OneFingerprint`); an event that breaks this guard is exactly one after
  which another fingerprint can be accepted (`GuardExactly`). A failed save before a restart is one way to
  break it (`UnsavedTrustForgotten`), and successful saves of well-formed entries keep it
  (`OrdinaryGuarded`).
- known_hosts survives a save exactly when every entry is well formed: `LoadSaveExactly`.
- A key file line gives its key back exactly when the key is not empty (`FormatRoundTripExactly`). A comment
  with a line break also gives whatever keys follow the break, so it is harmless exactly when there are none
  (`CommentBreakExactly`, `ItemExactly`), and a whole file gives exactly its keys when all its items are of
  that kind and only then (`FileRoundTripExactly`). Both callers that install a key pass an empty comment
  (crates/sqsh/src/connection.rs:227, crates/sqsh/src/bootstrap/mod.rs:115); only the key generator passes a
  text, of the user and host names (crates/sqsh/src/bin/sqsh-keygen.rs:94-99, 189-194), and only there can a
  break come from, by way of the USER or LOGNAME variable or the host name.
- Re-tokenising the joined words of a line, as LocalForward values are, is the identity exactly for words
  without special characters: `JoinRoundTripExactly`.
- Two ssh_config files in a row merge; only a malformed port of the second can be masked, by a port of the
  first: `MergeLaw`, `BadPortMasked`.
- A forward specification can be written down exactly when neither host holds a colon:
  `ForwardRoundTripExactly`.
- A listed name leads to an entry of its directory exactly when it is neither a dot entry nor empty and has
  no slash: `JoinExactly`. The tree copies assume it.
- Postcard decoding accepts padded varints; encoding again gives back what was read exactly when none was
  padded: `DecodedExactly`. Bytes after the message are ignored: `TrailingBytesIgnored`.
- A frame is read back exactly when its payload is within the cap, which the writer does not check:
  `FrameRoundTrip`.

## Model

| member | source | states |
|---|---|---|
| Utf8.Bijection | crates/sqsh-core/src/proto/codec.rs:17-53 | a byte string decodes to a text exactly when it is that text's encoding |
| Utf8.CharBytes | crates/sqsh-core/src/proto/codec.rs:17-53 | the bytes of a character by the table of section 3 of RFC 3629 |
| Postcard.DecodeEncodeVarint | crates/sqsh-core/src/proto/codec.rs:17-17 | a varint of any width decodes to the number it encodes and leaves what follows it |
| Postcard.DecodedVarintFits | crates/sqsh-core/src/proto/codec.rs:53-53 | a decoded varint is within its width, and encoding it again takes no more bytes than it took |
| Postcard.DecodeEncode | crates/sqsh-core/src/proto/codec.rs:17-53 | every value of a schema decodes from its encoding followed by anything, and what follows is left over |
| Postcard.DecodedFits | crates/sqsh-core/src/proto/codec.rs:53-53 | whatever decodes has the schema's shape, and its encoding is no longer than the bytes it was decoded from |
| Postcard.VarintExactly | crates/sqsh-core/src/proto/codec.rs:53-53 | a decoded varint is encoded as it was read exactly when it was not padded |
| Postcard.DecodedExactly | crates/sqsh-core/src/proto/codec.rs:53-53 | encoding what was decoded, with what is left over, gives back the bytes read exactly when no varint among them was padded |
| Postcard.DecodeIsNotInjective | crates/sqsh-core/src/proto/codec.rs:53-53 | such padded bytes exist: two byte strings with one value |
| WireFormat.VarintExactly | crates/sqsh-core/src/proto/codec.rs:17-17 | a number is encoded as the one sequence of seven-bit groups, low ones first, that is not padded |
| Codec.ControlFaithful | crates/sqsh-core/src/proto/message.rs:11-80 | control messages map to values of their schema and back without loss, and every value of the schema is a message |
| Codec.ChannelFaithful | crates/sqsh-core/src/proto/channel.rs:8-108 | the same for channel messages with their nested enums |
| Codec.ClientFaithful | crates/sqsh/src/control.rs:22-38 | the same for what a client sends to the ControlMaster |
| Codec.MasterFaithful | crates/sqsh/src/control.rs:40-48 | the same for what the ControlMaster sends to a client |
| WireFormat.ControlOnWire | crates/sqsh-core/src/proto/message.rs:11-80 | each control message is its variant number and its fields in declaration order, byte for byte |
| WireFormat.ChannelOnWire | crates/sqsh-core/src/proto/channel.rs:8-108 | the same for channel messages with their nested types: Close is [3], Eof is [4], Data is [5], its length and its bytes |
| WireFormat.ClientOnWire | crates/sqsh/src/control.rs:22-38 | the same for what a client sends to the ControlMaster |
| WireFormat.MasterOnWire | crates/sqsh/src/control.rs:40-48 | the same for what the ControlMaster sends to a client |
| WireFormat.HelloOnWire | crates/sqsh-core/src/proto/message.rs:11-20 | the first message is [0, 1], for version 1, and the user name |
| WireFormat.FrameOnWire | crates/sqsh-core/src/proto/codec.rs:19-26 | a frame is four bytes with the length, the low one first, and the payload |
| WireFormat.BadFrames | crates/sqsh-core/src/proto/codec.rs:37-51 | a length over 65536 is refused with the payload unread, a payload that does not come whole is an error, and otherwise exactly the payload is taken |
| Codec.WriteMessage | crates/sqsh-core/src/proto/codec.rs:12-29 | the writer gains the little-endian length and the payload, or nothing when the length does not fit in 32 bits |
| Codec.ReadMessage | crates/sqsh-core/src/proto/codec.rs:32-54 | reading consumes exactly what the specification of one frame consumes and returns its message or error |
| Codec.FrameRoundTrip | crates/sqsh-core/src/proto/codec.rs:12-54 | a written frame is read back, consuming it and nothing else, exactly when its payload is within the cap |
| Codec.PrefixIsNoMessage | crates/sqsh-core/src/proto/codec.rs:37-51 | no strict prefix of a frame yields a message |
| Codec.TrailingBytesIgnored | crates/sqsh-core/src/proto/codec.rs:53-53 | bytes after the message within a frame do not change it |
| Codec.StreamRoundTrip | crates/sqsh-core/src/proto/codec.rs:12-54 | reading the concatenated frames of any list of messages gives that list and consumes every byte, exactly when every payload is within the cap |
| Codec.ControlStreamRoundTrip | crates/sqsh-core/src/proto/message.rs:11-80 | this for control messages |
| Codec.ChannelStreamRoundTrip | crates/sqsh-core/src/proto/channel.rs:8-108 | this for channel messages |
| Codec.ClientStreamRoundTrip | crates/sqsh/src/control.rs:22-38 | this for client messages |
| Codec.MasterStreamRoundTrip | crates/sqsh/src/control.rs:40-48 | this for master messages |
| Codec.ChunksFit | crates/sqsh/src/sftp.rs:18-22 | every frame built from a chunk of at most 32768 bytes, as all loops use, is within the cap |
| Codec.RelayNeverGrows | crates/sqsh/src/control.rs:299-321 | a payload received as Data, ExtendedData or Stdin and sent on by the master is no longer than the one it came from |
| Codec.UsernameFits | crates/sqsh-core/src/auth/challenge.rs:24-26 | a user name that arrives in a frame within the cap has a length of 16 bits |
| ServerConnection.ExactMatchMeaning | crates/sqshd/src/connection.rs:210-219 | an allowlist entry matches exactly when it is the host, a colon and a numeral of the port |
| ServerConnection.ExactMatchIsExact | crates/sqshd/src/connection.rs:210-219 | the entry written from a host and a port matches that host and port and no other |
| ServerConnection.EveryRun | crates/sqshd/src/connection.rs:31-123 | in every run the table stays within its limit and the policy, each live forward task is in the table or aborted with one per key, and running channels plus free permits equal the limit |
| ServerConnection.RefusedExactlyWhenFull | crates/sqshd/src/connection.rs:36-46 | a stream gets a permit or one ResourceShortage failure, the latter exactly when all permits are held |
| ServerConnection.OneAnswerPerRequest | crates/sqshd/src/connection.rs:65-121 | the replies sent over a run are one per request read, in arrival order, each decided on the table as it stood |
| ServerConnection.GrantedExactly | crates/sqshd/src/connection.rs:66-105 | a request is confirmed exactly when it asks for localhost in any case, a loopback address or a host and port written in the allowlist, nothing is bound there yet and the table has room; only then anything changes |
| ServerConnection.RefusalReasons | crates/sqshd/src/connection.rs:66-90 | a refusal names the policy first, then the forward that is active, then the limit |
| ServerConnection.BoundWithinPolicy | crates/sqshd/src/connection.rs:66-105 | after any run everything bound meets the first of these conditions and the table is within its limit |
| ServerConnection.CancelFrees | crates/sqshd/src/connection.rs:106-111 | a cancelled forward is gone and aborted, the others stay, and it can be asked for again |
| ServerConnection.PermitReused | crates/sqshd/src/connection.rs:36-56 | the permit of a finished channel goes to the next stream |
| ServerConnection.AllPermitsReturn | crates/sqshd/src/connection.rs:36-56 | when all channels have finished, in any order, all permits are free |
| ServerConnection.KeepAliveAnswered | crates/sqshd/src/connection.rs:112-114 | a keep-alive is acknowledged with its own number |
| ServerConnection.ClosedIsQuiet | crates/sqshd/src/connection.rs:57-62 | after its end the loop sends, grants, cancels and accepts nothing |
| ServerConnection.RequestKeeps | crates/sqshd/src/connection.rs:67-105 | a request granted or refused keeps the table within limit and policy, with one live task per key |
| ServerConnection.CancelKeeps | crates/sqshd/src/connection.rs:106-111 | a cancellation keeps this, the task of the key being aborted |
| ServerConnection.AcceptKeeps | crates/sqshd/src/connection.rs:36-56 | accepting a stream keeps running channels plus free permits equal to the limit |
| ServerConnection.FinishKeeps | crates/sqshd/src/connection.rs:50-55 | so does the end of a channel task |
| ServerConnection.Connection.Handle | crates/sqshd/src/connection.rs:34-125 | the loop follows the run of its events, keeps the invariant, and everything in its table may be bound by this client |
| ForwardProtocol.SharedForwards.Register | crates/sqsh/src/control.rs:179-187 | an entry is appended unless one with its key is there; keys stay unique |
| ForwardProtocol.SharedForwards.Unregister | crates/sqsh/src/control.rs:201-204 | every entry with the key goes, whoever registered it |
| ForwardProtocol.SharedForwards.Find | crates/sqsh/src/channel/forward.rs:141-154 | the first entry with the port, if any |
| ForwardProtocol.FoundExactlyWhenFirst | crates/sqsh/src/channel/forward.rs:141-141 | of a table with unique keys: the lookup by its port finds a given entry exactly when no earlier entry has that port, whoever registered them |
| ForwardProtocol.StepKeeps | crates/sqsh/src/control.rs:178-210 | each step of any party keeps: one request outstanding at most, its reply belongs to the holder of the mutex, replies sent and handled agree with requests, and the table holds exactly the live keys not removed |
| ForwardProtocol.EveryRun | crates/sqsh/src/control.rs:178-210 | this in every state of every schedule; moreover each live forward goes back to one request that was granted, each entry to a registered one, each removal to a task that stopped at it, and the server's table stays within its limit and policy |
| ForwardProtocol.NoDeadlock | crates/sqsh/src/control.rs:189-210 | from every such state some schedule releases the mutex |
| ForwardProtocol.AgreementBreaksExactly | crates/sqsh/src/control.rs:198-207 | a step breaks the agreement of client and server tables exactly when it removes an entry whose key is live at the server or pending for another client |
| ForwardMatching.TablesAlwaysAgree | crates/sqsh/src/control.rs:178-210 | without two requests for one key that can both be come to, the client keys equal the server's keys plus those whose reply is not yet processed, in every state of every schedule |
| ForwardMatching.AgreementExactly | crates/sqsh/src/control.rs:178-210 | for every workload, policy and limit: the tables agree in every state of every schedule exactly when no two requests for one key can both be come to, that is, with all keys before them allowed and within the limit |
| ForwardMatching.RoutedStep | crates/sqsh/src/channel/forward.rs:140-154 | without two requests for one port that can meet, each step keeps: looking up a live forward's port finds the specification whose request created it, even before its confirmation is read |
| ForwardMatching.StreamsAlwaysFound | crates/sqsh/src/channel/forward.rs:108-154 | and every stream looked up in any schedule was matched with that specification |
| ForwardMatching.RoutingExactly | crates/sqsh/src/channel/forward.rs:108-154 | for every workload, policy and limit: every live forward is found by its port as its own specification in every state of every schedule, and every stream is matched with it, exactly when no request can be granted while another one for its port is come to |
| ForwardMatching.WithRoom | crates/sqsh/src/control.rs:178-210 | where the server allows all keys asked for and has room for them: the first holds exactly when no key, the second exactly when no port is asked for twice |
| ForwardMatching.SameFirstKey | crates/sqsh/src/control.rs:198-207 | two clients that start with one key break agreement in some schedule, whatever the server allows |
| ForwardMatching.RepeatedKeyBreaksAgreement | crates/sqsh/src/control.rs:201-204 | a run of two clients with one key after which the server's live forward is missing from the client table |
| ForwardMatching.SharedPortMisroutes | crates/sqsh/src/channel/forward.rs:141-141 | a run with two live forwards on one port in which the streams of one are matched with the other |
| ForwardMatching.RacedRegistrationMisroutes | crates/sqsh/src/control.rs:179-187 | a run in which the tables agree and the streams of a granted request are matched with the specification that another client registered first, under the same port or the same key |
| MasterLoop.CountIsExact | crates/sqsh/src/control.rs:107-155 | in every run the counter equals running handlers plus unconsumed done messages, so it never underflows |
| MasterLoop.ShutsDownOnlyWhenIdle | crates/sqsh/src/control.rs:111-123 | the master shuts down only with no handler running, no done message waiting and none of either throughout the full timeout before |
| MasterLoop.EveryShutdownWasIdle | crates/sqsh/src/control.rs:110-140 | every run that ends by timeout has such an idle stretch at its end |
| MasterLoop.IdleShutdownExactly | crates/sqsh/src/control.rs:110-123 | without clients the loop ends when nobody comes for the timeout, and no sooner |
| MasterLoop.NeverWithoutTimeout | crates/sqsh/src/control.rs:110-123 | without a timeout it never ends by itself |
| MasterLoop.CanAlwaysEnd | crates/sqsh/src/control.rs:110-140 | with a timeout every state of the running loop can go on to the end without anyone failing once no further client connects |
| MasterLoop.EveryClientServed | crates/sqsh/src/control.rs:114-136 | each client that connects is counted and gets a handler, idle loop or not |
| MasterLoop.Master.Serve | crates/sqsh/src/control.rs:92-140 | the loop follows the run of its events |
| Relay.StepKeeps | crates/sqsh/src/channel/forward.rs:183-210 | the chain of abstract loops: taking, sending, partly writing and stopping keep that each put out a prefix of what it took and that links lose nothing |
| Relay.PutIsPrefix | crates/sqsh/src/control.rs:295-339 | in any such chain what comes out at a node is a prefix of what the first one took; `EndToEnd` applies it to the real loops |
| Relay.NothingLost | crates/sqsh/src/control.rs:295-339 | while no abstract loop has ended, what was taken is what came out and what is on its way |
| Relay.DeliverAll | crates/sqsh/src/control.rs:295-339 | and all of it can be brought through to the far end |
| Relay.FreshInv | crates/sqsh/src/control.rs:295-339 | a chain of fresh loops and empty links meets the invariant |
| Relay.EndToEndOrder | crates/sqsh/src/control.rs:295-339 | the prefix property for both directions of an abstract chain over any schedule of its steps |
| EndToEnd.LoopsAreChain | crates/sqsh/src/control.rs:295-339 | loops that meet their contracts, each having received the first of the bytes that its neighbour sent, form such a chain |
| EndToEnd.FarEndIsPrefix | crates/sqsh/src/control.rs:295-339 | what comes out of the last of them is a prefix of what went into the first |
| EndToEnd.FarEndIsWhole | crates/sqsh/src/control.rs:295-339 | and all of it when no loop failed and nothing is on its way |
| EndToEnd.PumpToPump | crates/sqshd/src/channel/forward.rs:102-135 | the TCP pumps of client and server over any two schedules: under FIFO delivery of frames, in each direction the bytes written are a prefix of those read at the other side, and all of them when all frames arrived and no loop failed |
| EndToEnd.KeysArriveInOrder | crates/sqsh/src/control.rs:295-339 | from the slave through the master to the server, the keystrokes written are a prefix of those read, or all of them |
| EndToEnd.OutputArrivesInOrder | crates/sqsh/src/control.rs:295-339 | the same for the output in the other direction |
| EndToEnd.TerminalSession | crates/sqsh/src/control.rs:291-487 | both for the three real loops over any schedules: in order and without a gap, and whole once no loop failed and all frames have arrived |
| EndToEnd.SftpSession | crates/sqsh/src/sftp.rs:73-112 | SFTP bridge and subsystem over any schedules: requests and output arrive in order, and a client that wrote everything up to the Eof has the whole output if the server loop ended with it |
| Pumps.Pump | crates/sqsh/src/channel/forward.rs:179-212 | the TCP pump carries each direction without loss until a failure, sends nothing but data before its end, ends exactly with the TCP stream or the channel, and sends its one Eof when the TCP stream has ended |
| Pumps.PumpNext | crates/sqsh/src/channel/forward.rs:183-210 | one turn of the pump carries both directions on |
| Pumps.RelaySession | crates/sqsh/src/control.rs:291-341 | the master's session relay carries standard output, standard error and input, each in order and without loss until a failure; besides data it sends exactly the exit status, the end of the session, the end of input and new windows; an Eof to the client comes last, and Close is sent unless the loop failed |
| Pumps.SlaveIo | crates/sqsh/src/control.rs:436-487 | the terminal side carries input, standard output and standard error until a failure, tells of new windows and of the end of input, after which it sends none, and ends when the master dismisses it or stdin cannot be read |
| Pumps.BridgeWriter | crates/sqsh/src/sftp.rs:73-91 | the SFTP writer task sends what it reads, in frames of at most 32768 bytes, then one Eof |
| Pumps.BridgeReader | crates/sqsh/src/sftp.rs:93-112 | the SFTP reader task writes what the frames carry |
| Pumps.WriteAllToFd | crates/sqshd/src/channel/session.rs:589-603 | partial writes and spurious wake-ups leave a prefix written, and everything when it returns |
| Subsystem.ServeStdout | crates/sqshd/src/channel/session.rs:372-383 | each chunk read becomes one Data frame with the bytes that come next, and the loop goes on; it ends exactly at the end of standard output, on a read error or on a failed send, and then has sent no more |
| Subsystem.ServeStderr | crates/sqshd/src/channel/session.rs:384-397 | standard error becomes ExtendedData frames of type 1; a failed send is ignored |
| Subsystem.ServeClient | crates/sqshd/src/channel/session.rs:398-424 | what the client's message does to the child's input, and when the client is gone |
| Subsystem.Drain | crates/sqshd/src/channel/session.rs:361-430 | for every interleaving: the Data sent is a prefix of the child's standard output and all of it when the loop ended at its end, though the child may have exited before; standard error is sent as it is read while sends go well; the child's input is the client's data up to the first Eof, Close or failed write; and what ends the loop |
| Subsystem.ReapedExactly | crates/sqshd/src/channel/session.rs:425-430 | the status is that of the first wait that succeeded |
| Subsystem.RunSubsystem | crates/sqshd/src/channel/session.rs:338-450 | the whole channel: output frames, then Eof, exit status and Close as their sends succeed, with the status of the first successful wait or 255 |
| Subsystem.TraceGrammar | crates/sqshd/src/channel/session.rs:370-446 | such a trace has no reply, and nothing but the closing frames in order from its Eof on |
| Session.FirstInstalled | crates/sqshd/src/config.rs:98-110 | the first listed path that exists |
| Session.AcceptedExactly | crates/sqshd/src/config.rs:83-90 | the client may set a name that is listed, or that starts with a listed text before its final star |
| Session.ResolvedExactly | crates/sqshd/src/config.rs:94-112 | a configured command wins over any installed server, which only sftp has |
| Session.Handle | crates/sqshd/src/channel/session.rs:26-144 | the request phase: a child starts only from a request for it, with the last terminal request and the first 64 accepted pairs, all replies due have been sent, and a failure is one of the stream |
| Session.OneReplyEach | crates/sqshd/src/channel/session.rs:49-131 | each request that wants a reply gets exactly one, in order, telling whether it is supported |
| Session.PairsAccepted | crates/sqshd/src/channel/session.rs:89-106 | every pair passed on was sent by the client under a name that the configuration accepts |
| Session.PhaseMeaning | crates/sqshd/src/channel/session.rs:49-131 | before the child starts every request is granted but signals and unknown subsystems, and the phase ends with a request for a child, an Eof, a Close or a failure |
| Session.LastPtyExactly | crates/sqshd/src/channel/session.rs:49-59 | the terminal is that of the last request for one |
| Session.RunningReplies | crates/sqshd/src/channel/session.rs:501-556 | while the child runs a signal is granted, a new window if the terminal takes it, and nothing else |
| Session.ConfigureChild | crates/sqshd/src/channel/session.rs:249-290 | USER, LOGNAME, HOME, SHELL and PATH are the server's, TERM the terminal's if there is one, any other name has the client's last value or else the server's own; refused exactly for another user without root, or a user name with a zero byte |
| Session.IoPump | crates/sqshd/src/channel/session.rs:456-578 | output and keystrokes are carried in order, and the replies on the stream are those due to the requests taken |
| Session.RunChild | crates/sqshd/src/channel/session.rs:231-243 | the pump's frames, then Eof, the exit status and Close as they can be sent: the child's own status when its exit was seen, what the wait gives when the pump left before, 255 when that was in vain; and none of the three when the pump or the wait failed |
| Session.ServeSubsystem | crates/sqshd/src/channel/session.rs:338-450 | a subsystem channel carries no reply and a prefix of the output |
| Session.RunSession | crates/sqshd/src/channel/session.rs:26-243 | over a whole session at most one process starts, child or subsystem, each processed request has exactly the reply due to it, in order, and a child whose exit was seen closes the stream with its own status |
| SessionSetup.SendRequests | crates/sqsh/src/control.rs:254-286 | the master's requests for a client: terminal, environment, command |
| SessionSetup.OpenSession | crates/sqsh/src/control.rs:254-287 | the server that receives them starts exactly the child asked for and answers the requests whose answers the master waits for |
| HostPatterns.MatchMeaning | crates/sqsh/src/config.rs:385-399 | the matcher accepts exactly the values that can be cut into one piece per pattern byte: any for a star, one for a question mark, the same letter in either case otherwise |
| HostPatterns.SplitLaw | crates/sqsh/src/config.rs:385-399 | two patterns in a row match exactly the values that split into a match of each |
| HostPatterns.LiteralMatch | crates/sqsh/src/config.rs:393-395 | a pattern without wildcards matches exactly its own spellings up to ASCII case |
| HostPatterns.Wildcards | crates/sqsh/src/config.rs:385-399 | a star matches everything and a question mark any one byte |
| HostPatterns.PrefixMatch | crates/sqsh/src/config.rs:389-391 | a literal followed by a star matches exactly the values that start with it |
| HostPatterns.HostPatternsMatch | crates/sqsh/src/config.rs:370-383 | some positive pattern matches and no negated one does |
| HostPatterns.NegationWins | crates/sqsh/src/config.rs:370-383 | a pattern after an exclamation mark excludes what it matches, and exclusions alone select nothing |
| HostPatterns.OrderIndependent | crates/sqsh/src/config.rs:370-383 | neither order nor repetition of the patterns matters |
| Tokenizer.Tokenize | crates/sqsh/src/config.rs:401-438 | the loop computes the words of the line |
| Tokenizer.QuoteRoundTrip | crates/sqsh/src/config.rs:401-438 | quoting any words and joining them gives a line with those words, except that empty ones vanish |
| Tokenizer.QuoteRoundTripExactly | crates/sqsh/src/config.rs:401-438 | they come back exactly when none is empty |
| Tokenizer.JoinRoundTripExactly | crates/sqsh/src/config.rs:108-115 | words joined by spaces come back exactly when each is non-empty and free of quotes, backslashes, comment signs, equals signs and whitespace |
| Tokenizer.Normalise | crates/sqsh/src/config.rs:401-438 | quoting the words of any line gives a line with the same words |
| Tokenizer.CommentEnds | crates/sqsh/src/config.rs:418-418 | an unquoted comment sign ends the line, also inside a word |
| Tokenizer.SeparatorSplits | crates/sqsh/src/config.rs:419-428 | any whitespace and the equals sign separate words |
| Tokenizer.SingleQuoted | crates/sqsh/src/config.rs:416-417 | between single quotes everything stands for itself but the quote and the backslash |
| Tokenizer.BackslashEscapes | crates/sqsh/src/config.rs:408-415 | a backslash makes the next character stand for itself |
| Tokenizer.BackslashInQuotes | crates/sqsh/src/config.rs:408-416 | also between quotes of either kind |
| SshConfig.ForwardRoundTripExactly | crates/sqsh/src/config.rs:87-106 | a specification parses back from its written form exactly when neither host holds a colon |
| ConfigLines.ForwardExactly | crates/sqsh/src/config.rs:87-106 | a text is read as a forward exactly when it is a port, a host without colon and a port, after an address without colon or else for 127.0.0.1 |
| SshConfig.ConfigForwardSpellings | crates/sqsh/src/config.rs:108-115 | the one-word and the two-word spelling of a clean specification mean the same |
| SshConfig.ApplyMeaning | crates/sqsh/src/config.rs:320-350 | one more setting gives the configuration that the longer list of settings means, or fails exactly when that is not valid |
| SshConfig.Parse | crates/sqsh/src/config.rs:300-361 | the loop over lines with its active flag, and its first error |
| SshConfig.ErrorIsFirst | crates/sqsh/src/config.rs:304-360 | the first bad line decides, whatever follows |
| SshConfig.ParseMeaning | crates/sqsh/src/config.rs:300-361 | parsing succeeds exactly when the first port and every forward of the active sections are well formed; each scalar is then the first value in an active section and each list all of them |
| SshConfig.MergeLaw | crates/sqsh/src/config.rs:300-361 | two files in a row, the second starting with Host: when they parse, exactly, and that the result is the first merged with the settings of the second, also when a malformed port of it is masked |
| SshConfig.MergeParsed | crates/sqsh/src/config.rs:300-361 | if both parse, so does their concatenation, to the merge |
| SshConfig.PortMasked | crates/sqsh/src/config.rs:324-329 | any port in the first file masks any malformed port in the second |
| SshConfig.BadPortMasked | crates/sqsh/src/config.rs:324-329 | a file that fails alone and parses after another |
| ConfigLines.ScalarLine | crates/sqsh/src/config.rs:320-349 | one line with HostName, User, IdentityFile, ControlPath or ControlPersist, in any case, gives that field and nothing else |
| ConfigLines.PortLineMeaning | crates/sqsh/src/config.rs:324-329 | a Port line gives the port that it spells, and is an error exactly if it spells none |
| ConfigLines.ForwardLineMeaning | crates/sqsh/src/config.rs:331-342 | a LocalForward or RemoteForward line gives its forward in the list of that direction |
| ConfigLines.BadForwardLine | crates/sqsh/src/config.rs:331-342 | and is an error if it denotes none |
| ConfigLines.ControlMasterLine | crates/sqsh/src/config.rs:344-346 | a ControlMaster line gives whether its value is yes, true, auto, autoask or ask in any case |
| ConfigLines.OtherLine | crates/sqsh/src/config.rs:349-349 | a line with any other name gives nothing |
| ConfigLines.FirstValueCounts | crates/sqsh/src/config.rs:357-361 | of two values for one setting the first counts |
| ConfigLines.ForwardsAdd | crates/sqsh/src/config.rs:331-337 | forwards are all kept, in order |
| ConfigLines.HostSection | crates/sqsh/src/config.rs:311-318 | a setting after a Host line counts exactly when its patterns select the host |
| TreeCopy.CreateDirAllEffect | crates/sqsh/src/bin/sqcp.rs:146-148 | creating a directory with its ancestors fails exactly when a file is in the way and changes nothing else |
| TreeCopy.JoinExactly | crates/sqsh/src/bin/sqcp.rs:160-165 | joining a listed name leads to the entry of that name exactly when the name is a normal one |
| TreeCopy.CopyChunks | crates/sqsh/src/bin/sqcp.rs:189-195 | the chunk loop writes exactly the file's contents, whatever sizes the reads return |
| TreeCopy.WalkNext | crates/sqsh/src/bin/sqcp.rs:145-171 | expanding a directory keeps: the worklist holds once each the unexpanded directories whose parent was expanded |
| TreeCopy.WalkEnd | crates/sqsh/src/bin/sqcp.rs:145-177 | with an empty worklist every directory of the tree has been expanded |
| TreeCopy.CopyFiles | crates/sqsh/src/bin/sqcp.rs:173-175 | the files of a directory are copied once each into a directory that exists, or something of another kind is in the way |
| TreeCopy.DownloadTree | crates/sqsh/src/bin/sqcp.rs:140-178 | for every finite tree and listing order the download ends; it succeeds exactly when nothing of another kind is in the way, then holds the whole tree, each file copied once, all other paths unchanged; otherwise every path is as before or as it would be |
| TreeCopy.EnsureDir | crates/sqsh/src/bin/sqcp.rs:300-311 | an existing directory is accepted, and otherwise one is made if its parent is there |
| TreeCopy.UploadTree | crates/sqsh/src/bin/sqcp.rs:248-275 | the same for uploads, which need the parent of the remote root to exist |
| KnownHosts.ParsedWellFormed | crates/sqsh/src/known_hosts.rs:21-29 | loading yields well-formed entries only |
| KnownHosts.LoadSaveExactly | crates/sqsh/src/known_hosts.rs:15-94 | in any iteration order, loading what was saved gives the same entries exactly when all are well formed |
| KnownHosts.TextForm | crates/sqsh/src/known_hosts.rs:21-29 | a line is host, space and fingerprint; blank lines, comments and lines without a space say nothing |
| KnownHosts.LaterLineWins | crates/sqsh/src/known_hosts.rs:21-29 | a later line for a host replaces the earlier one |
| KnownHosts.Store.Load | crates/sqsh/src/known_hosts.rs:15-36 | a file that others can access is refused, otherwise its entries are loaded |
| KnownHosts.Store.Save | crates/sqsh/src/known_hosts.rs:79-94 | the file's new text lists the entries in iteration order |
| KnownHosts.Store.Verify | crates/sqsh/src/known_hosts.rs:43-67 | an unknown host is stored and saved, a known one compared |
| KnownHosts.Store.PinHost | crates/sqsh/src/known_hosts.rs:73-77 | the entry is replaced and saved |
| KnownHosts.OneFingerprint | crates/sqsh/src/known_hosts.rs:15-77 | over any run of checks, pins and reloads, from any state and with any saves failing, all fingerprints accepted for a host are the same if each reload finds the host as it is in memory and each pin of it repeats what is there |
| KnownHosts.GuardExactly | crates/sqsh/src/known_hosts.rs:15-77 | an event at a known host meets that guard exactly when no check after it can be accepted with another fingerprint |
| KnownHosts.OrdinaryGuarded | crates/sqsh/src/known_hosts.rs:43-94 | runs whose saves succeed on well-formed entries, without pins of the host, meet the guard |
| KnownHosts.OrdinaryTrust | crates/sqsh/src/known_hosts.rs:15-67 | so their accepted fingerprints are the same, from whatever file is on disk |
| KnownHosts.UnsavedTrustForgotten | crates/sqsh/src/known_hosts.rs:47-55 | a run with a failed save in which two fingerprints are accepted for one host |
| Base64.DecodeExactly | crates/sqsh-core/src/auth/keys.rs:35-35 | a text decodes to given bytes exactly when it is their canonical padded encoding, section 4 of RFC 4648 |
| Base64.Alphabet | crates/sqsh-core/src/auth/keys.rs:35-35 | the 64 symbols of table 1 of RFC 4648 |
| Base64.QuadBits | crates/sqsh-core/src/auth/keys.rs:35-35 | four symbols stand for the 24 bits of three bytes, the high ones first |
| Base64.PaddedBits | crates/sqsh-core/src/auth/keys.rs:35-35 | a last group of one or two bytes is filled up with zero bits and the padding sign |
| AuthorizedKeys.FormatRoundTripExactly | crates/sqsh/src/bootstrap/keys.rs:99-106 | a formatted key parses back from its line, whatever its comment, exactly when it is not empty |
| AuthorizedKeys.CommentBreak | crates/sqsh/src/bootstrap/keys.rs:99-106 | a formatted key whose comment breaks its line parses to the key and then whatever the text after the break gives |
| AuthorizedKeys.CommentBreakExactly | crates/sqsh/src/bootstrap/keys.rs:99-106 | so to the key alone exactly when that text holds no key |
| AuthorizedKeys.ItemExactly | crates/sqsh-core/src/auth/keys.rs:18-38 | an item of a file gives its own key and nothing else, or for other text nothing, exactly when its key is not empty and no key stands after a break of its comment or in the other text |
| AuthorizedKeys.FileRoundTrip | crates/sqsh-core/src/auth/keys.rs:18-38 | a file of such items parses to exactly its keys, in order |
| AuthorizedKeys.FileRoundTripExactly | crates/sqsh-core/src/auth/keys.rs:18-38 | a file parses to exactly its keys if and only if every one of its items is such |
| AuthorizedKeys.NoteLines | crates/sqsh-core/src/auth/keys.rs:24-33 | blank lines, comments and keys of other types are such items |
| AuthorizedKeys.PlainComment | crates/sqsh/src/bootstrap/keys.rs:99-106 | a comment without a break is always harmless |
| AuthorizedKeys.CommentAddsKey | crates/sqsh/src/bootstrap/keys.rs:99-106 | an instance with one formatted key after the break |
| Auth.PreimageInjective | crates/sqsh-core/src/auth/challenge.rs:17-35 | what is hashed determines nonce, fingerprint and user name |
| Auth.PreimageLayout | crates/sqsh-core/src/auth/challenge.rs:17-35 | 22 bytes of purpose, 32 of the nonce, 32 of the fingerprint, the length of the name in two, and the name |
| Auth.BuildChallengePayload | crates/sqsh-core/src/auth/challenge.rs:17-35 | five updates of the hasher feed it the preimage |
| Auth.ReceivedNameFits | crates/sqsh-core/src/auth/challenge.rs:24-26 | a received user name fits the preimage's length field |
| Auth.ServerAuthenticate | crates/sqshd/src/connection.rs:221-309 | the server's exchange on any incoming messages, with sends that may fail; the length check cannot fail |
| Auth.AcceptedExactly | crates/sqshd/src/connection.rs:275-308 | a login is accepted exactly with a listed key and a signature under it over this nonce, this certificate and this user; success is sent exactly then |
| Auth.RefusedExactly | crates/sqshd/src/connection.rs:221-309 | when a failure, a challenge or the message about another version is sent, exactly |
| Auth.NoEnumeration | crates/sqshd/src/connection.rs:246-283 | without a listed key a missing user looks like any other |
| Auth.ClientAuthenticate | crates/sqsh/src/connection.rs:239-296 | the client's exchange on any incoming messages, with sends that may fail; it succeeds exactly on a challenge followed by a success, and is refused exactly on a challenge followed by a failure, given a name that fits, a seed of 32 bytes and two sends |
| Auth.LoggedInExactly | crates/sqsh/src/connection.rs:239-296 | the same of every run of the client |
| Auth.SignsWhenChallenged | crates/sqsh/src/connection.rs:239-296 | the signature is sent only in answer to a challenge, over its nonce |
| Auth.HonestLogin | crates/sqsh/src/connection.rs:239-296 | an honest client with a listed key and the same fingerprint succeeds on both sides once all frames are delivered |
| Auth.ListedFromFile | crates/sqshd/src/connection.rs:314-344 | a key formatted into the user's file is listed |
| Auth.Agreement | crates/sqshd/src/connection.rs:255-308 | in a run with any number of connections, unforged signatures and no collision among the preimages hashed in it, behind each login stands a client with that key, user and certificate, challenged with this nonce |
| Auth.NoReplay | crates/sqshd/src/connection.rs:255-308 | logins at servers with different nonces stand for different client connections |

## Left out

- Quinn, TLS, sockets, terminals, process creation and file I/O errors: they appear as outcomes and event sequences.
- Cancellation of a half-read frame inside `select!`: a frame arrives whole or not at all.
- End-to-end delivery of the exit status: Eof is sent before it and both client loops stop at Eof.
- Whether a confirmed remote forward is bound: the server confirms before it binds, and a forward task that ends by itself stays in its table.
- Failures of the control stream inside master client tasks (`ForwardProtocol`): a task that has sent its request reads the reply.
- Local forwards, the direct-tcpip check beyond its allowlist match, and the SFTP protocol itself.
- The texts of refusals and errors: parameters where they are sent, dropped where they are only logged.
- Parsing of IP addresses in the loopback test: a parameter of `ServerConnection.Config`.
- The environment names and values that the operating system refuses (an equals sign or a zero byte inside): such a child fails to start.
- Session.RunSession: makes no reply claim for subsystems, which send none while they run.
- Subsystem.Drain: promises all of standard error only as far as its arm has had turns, because the loop ends with standard output.
- TreeCopy.DownloadTree: symbolic links count as files, listed names are assumed normal (`JoinExactly` says where others lead), and remote failures other than obstruction are not modelled.
- TreeCopy.UploadTree: the same failures and links.
- EndToEnd.TerminalSession: has no standard error, because the server's terminal pump sends none.
- Auth.Agreement: takes signatures under honest keys as unforged and the hash as free of collisions among the preimages of the run.
- Bootstrap, service files, key generation, the sqftp prompt, migration monitoring, command-line parsing, `expand_ssh_path`, `ControlPersist` durations: input and output plumbing or single branches.
