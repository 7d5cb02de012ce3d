# Pica Pica: verified core

Pica Pica is a distributed messenger: clients talk to nodes, nodes talk to each other, and calls between clients run
over a node or directly.  Everything is driven by hand-written state machines over byte streams.  This project models
the parts of it with the most state and proves what they are for.

| file | what it models |
|---|---|
| Framing.dfy, C2cCodec.dfy | cutting a byte stream into messages by a table; the client-to-client messages |
| SendChannel.dfy, DirectSwitch.dfy, SwitchRuns.dfy | write buffers with TLS retries and the write barrier; moving a live stream from the relayed to the direct connection |
| FileTransfer.dfy, FileChannel.dfy | the two-party file transfer protocol; the fields and functions of one side |
| FileRefusal.dfy, FileAgreement.dfy, FileWire.dfy | when a file transfer drops its connection; that its two ends agree, and that it is completed; its messages as octets |
| Handshake.dfy, HandshakeRuns.dfy | the stages of setting up a client-to-client channel; what lies behind an Active one, told from the events |
| Ids.dfy, ClientTree.dfy, MultiLogin.dfy | the search tree of logged-in clients on the heap; several logins of one user |
| Router.dfy, RouterPushes.dfy, CallRecords.dfy | a node's call records; which messages it pushes; what becomes of each record |
| CallSetup.dfy, CallRuns.dfy, NetRuns.dfy | call setup across any number of nodes; calls that come about, at one node and at two |
| Relay.dfy | the two relay buffers of a call |
| NodeList.dfy | writing and reading lists of node addresses |
| NodeWait.dfy, WaitList.dfy | handing records over between the main loop and worker threads; the list it walks |
| Dictionary.dfy | the dictionary of the configuration reader |
| Memory.dfy | bytes, the copying of buffers, sequences without repetitions |

What the outside world gives (bytes taken by TLS or `send`, bytes received, thread and connection results, clocks, the
certificate check) is a parameter of the operation or a part of the event.  A statement about every run quantifies over
every sequence of such events.  Objects whose fields the program updates are classes; the loops over buffers, lists and
trees are loops over arrays and heap nodes, each proved against a function or a property on plain values, and the
theorems are about those.

Assumptions: allocation succeeds; connections are reliable FIFO byte streams until they are closed; peers run the same
code; the host is little-endian; in runs over several nodes each user is logged in at one node (`home`).

## What turned out not to hold

For each of these the model follows the code, and the condition under which the code does what it is meant to is proved
in both directions, with failing cases beside it.

* Removing a client with two children leaves stale `up` links (`ClientTree.DoubleUpBroken`,
  `ClientTree.StaleLinkKeepsClient`).  `left` and `right` are right after every single removal; `up` is right if and only
  if the client had at most one child (`ClientTree.Registry.RemoveClient`).  With the missing assignments added
  (`RemoveRestoring`, a deliberate deviation) every run of logins and logouts is right; as written, every run is right
  up to the first logout that removes a client with two children (`MultiLogin.Replay`).
* `process_c2c_write` shares one `ret` between both directions.  A write callback is sure to lose nothing if and only if
  the other buffer is empty (`Relay.ConservesExactlyWhenOppositeEmpty`, `Relay.WouldBlockDropsErrnoBytes`).  The
  results about every run of the relay are about the intended, per-direction meaning; a run of the code, with events of
  both directions, is such a run as long as each write callback finds the other buffer empty
  (`Relay.HarmlessRunConserves`, `Relay.RunLink`).
* File transfers drop their connection although both peers follow the protocol: a message that arrives after the peer
  has ended, paused or resumed the transfer by itself is refused, and a refusal closes the channel.  In every run a
  message is refused if and only if it is a fragment at an idle receiver, a command that the state does not take, or a
  request with an unusable name; a request never meets a busy receiver, an answer always finds the sender waiting, and
  a fragment is never too long (`FileRefusal.RefusedExactlyWhenLate`, `FileRefusal.DropsExactlyWhen`).  Both sides
  pausing, and a receiver that cancels while a fragment is on its way, are two such runs
  (`FileRefusal.CrossingPausesDrop`, `FileRefusal.CancelMeetsFragment`).
* A reply that the protocol versions differ is queued in a state in which `PICA_write_c2c` ends the process
  (`Handshake.AnswerableExactlyWhenVersionsAgree`, `Handshake.ExitsExactlyWhenWritableInProtoVer`); a callee that has
  done everything right up to there exits for every other version (`Handshake.OtherVersionMakesCalleeExit`).
* A full node list makes a message of 65538 octets, which the client's 65536-octet buffer can never hold; this happens
  if and only if the node has at least 9361 neighbours to name (`NodeList.ListWedgesClientExactlyWhenFull`).
* A node reads a node list to its end if and only if it consists of whole IPv4 items
  (`NodeList.NodeHaltsExactlyOnWholeItems`, `NodeList.SomeListsDoNotEnd`).
* A record that waits for a node is never owned again, and never freed, if its thread could not be created or its
  connecting thread gave up because no TLS object was available (`NodeWait.LostForEver`,
  `NodeWait.RecordWithoutThreadStays`); every record has an owner if and only if this never happened
  (`NodeWait.AllOwnedExactlyWhenNoFailure`).
* The documentation of `dictionary_set` says that setting a key to NULL is equivalent to deleting it.  In the code the
  key stays, is counted in `n`, and a look-up gives NULL and not the default (`Dictionary.SetToNothingIsNotUnset`): the
  two give a look-up the same result if and only if it is for another key or its default is NULL too
  (`Dictionary.SetToNothingLikeUnsetExactlyWhen`).

## Model

| member | source | states |
|---|---|---|
| `Framing.DecideMonotone` | PICA_msgproc.c:25-62 | a decided message size is positive, is never the "need more" value, does not change when more bytes arrive, and is decided after four bytes |
| `Framing.MsgGetSize` | PICA_msgproc.c:25-62 | the table scan and length loop report exactly the decision on the bytes present, and zero if and only if no message begins with them |
| `Framing.MalformedExactlyWhenGarbage` | PICA_msgproc.c:32-61 | bytes are refused if and only if the identifier is not repeated or no row of the table has it |
| `Framing.FirstRowDecides` | PICA_msgproc.c:35-58 | otherwise the first row for the identifier gives the size, once its length field is there |
| `Framing.ReadLength` | PICA_msgproc.c:45-55 | the octets of the length field are its little-endian value |
| `Framing.ProcessDataStream` | PICA_msgproc.c:79-102 | the in-place loop dispatches, refuses and leaves exactly what parsing the sequence of bytes does |
| `Framing.ChunkIndependence` | PICA_msgproc.c:79-102 | any cutting of a stream into chunks gives the same connection state, verdict and residual as the stream at once |
| `Framing.DrainAppend` | PICA_msgproc.c:79-102 | parsing what has arrived and then the rest is parsing everything |
| `Framing.WedgedExactlyWhenOversized` | PICA_msgproc.c:79-102 | a read buffer is left without room exactly when it is full of the start of a message longer than itself |
| `Framing.DrainFrames` | PICA_msgproc.c:79-102 | any prefix of a stream of whole messages dispatches exactly the messages that fit in it |
| `Framing.TakesWholeMessages` | PICA_msgproc.c:79-102 | any bytes at all are whole accepted messages followed by what the pass leaves, and it stops only before a part of a message, before bytes with which no message begins, or before a message its handler refuses, as it then says |
| `Framing.GarbageIsRefused` | PICA_msgproc.c:79-102 | accepted messages followed by bytes with which no message begins: the stream is refused, and exactly those bytes are left |
| `C2cCodec.OctetsRoundTrip` | PICA_client.c:3202-3251 | length and size fields read back the number that was written |
| `C2cCodec.TableReadsC2c` | PICA_client.c:108-123 | the program's table has, for every message kind, the row its writer needs |
| `C2cCodec.EncodedIsFrame` | PICA_client.c:3096-3251 | every message the client writes is one whole frame of at most the read buffer |
| `C2cCodec.DecodeEncoded` | PICA_client.c:3184-3251 | each message decodes to what was encoded |
| `C2cCodec.Layout` | PICA_client.c:3184-3251 | which octet of each message is where |
| `C2cCodec.StreamRoundTrip` | PICA_client.c:108-123 | however much of an encoded stream has arrived, exactly its whole messages have been read back and the buffer has room for the next read |
| `C2cCodec.OversizedFrameWedges` | PICA_client.c:3017-3046 | the table alone allows a message that fills the read buffer for good |
| `SendChannel.PushConserves` | PICA_client.c:3096-3127 | a push keeps every byte in its place and an outstanding retry unchanged |
| `SendChannel.SwitchConserves` | PICA_client.c:3167-3182 | queuing the SWITCH message sets the barrier behind it and keeps every byte |
| `SendChannel.WriteConserves` | PICA_client.c:2905-2988 | a write, partial or blocked, before, at or behind the barrier, keeps: bytes pushed are bytes taken by each connection followed by the buffer |
| `SendChannel.Channel.Push` | PICA_client.c:3096-3127 | the growing buffer holds the old bytes followed by the message; the position stays within capacity |
| `SendChannel.Channel.MakeRoom` | PICA_client.c:3100-3119 | growth makes room and keeps the contents |
| `SendChannel.Channel.SendSwitch` | PICA_client.c:3167-3182 | the switch message and the barrier behind it |
| `SendChannel.Channel.WriteSsl` | PICA_client.c:2905-2935 | what TLS took leaves the front of the part offered; a blocked write remembers its length |
| `SendChannel.Channel.WriteC2c` | PICA_client.c:2949-2988 | the whole new buffer, retry, barrier and switch state |
| `SendChannel.RunSender` | PICA_client.c:2905-2988 | in every run of pushes, the switch and write attempts every byte pushed, before or behind the switch, is taken by its connection, in order, or in its part of the buffer |
| `SendChannel.RunChannel` | PICA_client.c:2949-2988 | after any such run the channel object's buffer, barrier and retry are those of the run |
| `SendChannel.NodeWriteConserves` | PICA_node.c:3013-3043 | dropping bytes only when the whole offer was taken is right if and only if TLS takes all or nothing, which it does since partial writes are not enabled |
| `SendChannel.RunOf` | PICA_node.c:3013-3043 | in every run of queued messages and write attempts of a node, bytes queued are bytes taken followed by the buffer, and an outstanding retry offers the bytes it offered before |
| `SendChannel.TwoWritesEmpty` | PICA_node.c:3013-3043 | two writes that TLS takes empty the buffer, whatever happened before |
| `SendChannel.RunNodeBuffer` | PICA_node.c:2183-2217 | after any such run the buffer object holds exactly those bytes and that retry length |
| `SendChannel.NodeBuffer.Push` | PICA_node.c:2183-2217 | the node's growing buffer holds the old bytes followed by the message, a retry is unchanged |
| `SendChannel.NodeBuffer.Write` | PICA_node.c:3293-3331 | the new buffer and retry length of the node's writers |
| `DirectSwitch.StepKeepsInv` | PICA_client.c:2949-2988 | every push, write, retry and read keeps the agreement of sender, connections and receiver |
| `DirectSwitch.SwitchIsSeamless` | PICA_client.c:2427-2592 | in every run across the switch the messages dispatched are a prefix of those pushed, all of them once nothing is left, and nothing behind SWITCH goes on the old connection |
| `DirectSwitch.WritableIsEnabled` | PICA_client.c:3184-3251 | every message of the client's writers can be pushed |
| `DirectSwitch.MessagesArrive` | PICA_client.c:3017-3046 | in every run across the switch the messages dispatched decode to the first of those pushed, in order |
| `DirectSwitch.AllRead` | PICA_client.c:3017-3046 | with nothing left to write or read, everything pushed has been dispatched |
| `SwitchRuns.DispatchedAsPushed` | PICA_client.c:2427-2592 | in every run the messages dispatched are the first of those the steps pushed, and a channel ends in a read only if the handler refuses the next of them |
| `SwitchRuns.EverythingCanArrive` | PICA_client.c:2905-3046 | from every state reached with a live receiver, writing and reading alone lead to all messages having been dispatched, before, at or after the switch |
| `FileTransfer.TransfersAreFaithful` | PICA_client.c:1019-1216 | in every two-party run each file written is a prefix of the file announced by the same request and equal to it when finished, streams are open exactly in the states that use them, and no close acts on a closed stream |
| `FileTransfer.NothingMeetsWaitAccept` | PICA_client.c:1137-1216 | a sender command never meets a receiver that still waits for the user's answer |
| `FileTransfer.RunKeepsInv` | PICA_client.c:951-1216 | every call and every message received, in any interleaving, keeps bytes, turns and stream states of both directions |
| `FileRefusal.RunKeepsClear` | PICA_client.c:1019-1216 | in every run both ends of a direction agree on which transfers are over: no request is on its way to a busy receiver, a denial or cancellation on its way means an idle one, and a cancellation is heard in its own transfer |
| `FileRefusal.RefusedExactlyWhenLate` | PICA_client.c:1019-1216 | in every run a message is refused if and only if it is late or a request with an unusable name; requests find an idle receiver and answers a waiting sender |
| `FileRefusal.DropsExactlyWhen` | PICA_client.c:3017-3046 | a step ends the connection exactly when it takes such a message, or reads on at the end of its file |
| `FileRefusal.CrossingPausesDrop` | PICA_client.c:1137-1216 | both sides pause, the commands cross, the connection is gone |
| `FileRefusal.CancelMeetsFragment` | PICA_client.c:1090-1098 | the receiver cancels, a fragment arrives, the connection is gone |
| `FileAgreement.StillMeansAgreed` | PICA_client.c:951-1216 | in every run, whenever no message is on its way, both ends of each direction are in states that belong together: sending and receiving, both paused, asked and asking, or both idle |
| `FileAgreement.RunKeepsAgreement` | PICA_client.c:1137-1216 | in every run the two ends of an accepted transfer are in step but for the commands on their way |
| `FileAgreement.LoneCommandArrives` | PICA_client.c:3253-3353 | from any such state a pause, resume or cancel is said to the peer and leaves both ends in the state it names, connected, with the other direction and all files untouched; one that does not fit does nothing |
| `FileAgreement.LoneRequestArrives` | PICA_client.c:1019-1057 | an announced file reaches a peer that is free for it, and both ends follow the answer |
| `FileAgreement.LoneAnswerArrives` | PICA_client.c:951-1017 | a postponed answer arrives too |
| `FileAgreement.TransferCompletes` | PICA_client.c:3355-3404 | a transfer with bytes left can be completed from any such state by sending fragments only, and the peer then has the whole file |
| `FileWire.PushedReadsBack` | PICA_client.c:3202-3404 | every message a call or handler of the protocol pushes can be written and is read back as the same message, for files shorter than 2^64 octets |
| `FileWire.WireRoundTrip` | PICA_client.c:3340-3353 | file messages and their octets correspond |
| `FileChannel.Channel.DenyFile` | PICA_client.c:951-970 | denying a file |
| `FileChannel.Channel.AcceptFile` | PICA_client.c:972-1017 | accepting a file opens the receive stream |
| `FileChannel.Channel.OnRequest` | PICA_client.c:1019-1057 | an announced file, refused while another is in progress |
| `FileChannel.Channel.OnAccepted` | PICA_client.c:1059-1071 | the answer starts the sender |
| `FileChannel.Channel.OnDenied` | PICA_client.c:1073-1088 | the answer closes the send stream |
| `FileChannel.Channel.OnFragment` | PICA_client.c:1090-1135 | a fragment is appended, finishes the file or is refused as too long |
| `FileChannel.Channel.OnControl` | PICA_client.c:1137-1216 | both halves of a control message, with every refusal |
| `FileChannel.Channel.StartFile` | PICA_client.c:3202-3251 | announcing a file |
| `FileChannel.Channel.PauseTransfer` | PICA_client.c:3253-3278 | pausing either direction |
| `FileChannel.Channel.ResumeTransfer` | PICA_client.c:3280-3305 | resuming either direction |
| `FileChannel.Channel.CancelTransfer` | PICA_client.c:3307-3338 | cancelling either direction closes its stream |
| `FileChannel.Channel.SendNextFragment` | PICA_client.c:3355-3404 | the next fragment continues where the last ended, the last closes the stream |
| `FileChannel.Channel.Move` | PICA_client.c:3017-3046 | one call or one message of one side, with the queues on both sides of it |
| `FileChannel.RunTransfers` | PICA_client.c:951-1216 | two channel objects driven by any steps: files written are prefixes of those announced and equal when finished, streams match states, no close of a closed stream, and the objects end as the protocol run does |
| `Handshake.ActiveMeansProcedureDone` | PICA_client.c:239-352 | in every run a channel that is ACTIVE has, since it last began to connect and in this order, completed anonymous TLS, flushed CONNID, shut anonymous TLS down, completed TLS, passed the certificate check and exchanged versions, in either role |
| `Handshake.RunKeeps` | PICA_client.c:2233-2376 | every restart, push and pass of process_c2c keeps state and history in step |
| `Handshake.ExitsExactlyWhenWritableInProtoVer` | PICA_client.c:2339-2352 | the process exits exactly when a channel awaiting the peer's version is found writable |
| `Handshake.AnswerableExactlyWhenVersionsAgree` | PICA_client.c:477-518 | the reply to a version request can be written if and only if the versions agree |
| `Handshake.OtherVersionMakesCalleeExit` | PICA_client.c:477-518 | for every other version there is a run of a fresh channel, without any failure, in which the callee's process exits |
| `Handshake.C2c.Connect` | PICA_client.c:434-475 | starting to connect, at once, in progress or failed |
| `Handshake.C2c.Stage4` | PICA_client.c:294-309 | the first shutdown call; a completed shutdown is an error here |
| `Handshake.C2c.WriteC2c` | PICA_client.c:2949-2988 | the states in which writing is refused, and closing once a parting message is out |
| `Handshake.C2c.ReadC2c` | PICA_client.c:3017-3046 | the messages are handled in order until one is refused |
| `Handshake.C2c.Dispatch` | PICA_client.c:477-551 | the version request and its answers |
| `Handshake.C2c.ProcessC2c` | PICA_client.c:2233-2393 | one pass of the event loop over a channel in every state |
| `Handshake.RunChannel` | PICA_client.c:2233-2393 | a channel object driven by any events: whenever it is Active the whole procedure lies behind it, and it ends as the run does |
| `HandshakeRuns.ActiveIsJustified` | PICA_client.c:2233-2376 | behind an Active channel lie events, since it last began to connect and in this order: anonymous TLS completed, a successful write, its shutdown, TLS with a certificate that passed, and the peer's word that the versions agree |
| `HandshakeRuns.ActiveHasHeard` | PICA_client.c:477-551 | in every run a caller is Active only if it has read INITRESPOK since it last began to connect, a callee only if it has read a request with its own version |
| `HandshakeRuns.ConversationIsExact` | PICA_client.c:477-551 | a batch of messages is survived if and only if it is acceptable, makes the channel Active if and only if the right one is among them, and its replies are queued |
| `HandshakeRuns.VerDifferCloses` | PICA_client.c:520-551 | a message that the versions differ ends the channel, whatever else is read |
| `HandshakeRuns.SetUpClosesExactlyWhen` | PICA_client.c:2233-2393 | a channel being set up is closed by a pass if and only if a call of its stage failed or it is late |
| `HandshakeRuns.StartClosesExactlyWhen` | PICA_client.c:434-475 | an attempt to connect ends the channel if and only if it is refused or TLS cannot be started |
| `HandshakeRuns.LateMeansActive` | PICA_client.c:2378-2393 | whatever outlives a pass past its time is Active |
| `HandshakeRuns.BytesAreAccounted` | PICA_client.c:2905-2988 | in every run the bytes queued are those written and those in the write buffer |
| `HandshakeRuns.CanComplete` | PICA_client.c:2233-2376 | a channel not told to part can be brought to Active from whatever state |
| `HandshakeRuns.BothRolesComplete` | PICA_client.c:239-352 | the runs in which everything succeeds end Active, in both roles, with nothing left to write |
| `Ids.Memcmp` | PICA_node.c:1887-1894 | comparing identifiers orders them by their value and is zero exactly on equal ones |
| `ClientTree.Registry.Search` | PICA_node.c:1923-1945 | the client with the identifier, or null exactly if none has it |
| `ClientTree.Registry.Add` | PICA_node.c:1876-1921 | exactly this client is added, unless its identifier is taken; order, children and `up` links are kept |
| `ClientTree.Registry.RemoveClient` | PICA_node.c:1978-2030 | exactly this client is gone and order and children are right; the `up` links are right if and only if it had at most one child |
| `ClientTree.Registry.RemoveRestoring` | PICA_node.c:1978-2030 | with the missing assignments added, the `up` links are right too |
| `ClientTree.Registry.ReplaceMulti` | PICA_node.c:2082-2114 | the next login takes over place, children, parent and state |
| `ClientTree.RemoveShape` | PICA_node.c:1978-2030 | removal takes out exactly one client and keeps the order |
| `ClientTree.SimpleRemoval` | PICA_node.c:1996-2013 | the first three cases give the right pointers |
| `ClientTree.DoubleRemoval` | PICA_node.c:2016-2029 | in the last case `left` and `right` come out right |
| `ClientTree.DoubleUpBroken` | PICA_node.c:2016-2029 | in the last case the `up` links come out wrong, always |
| `ClientTree.DoubleRepaired` | PICA_node.c:2016-2029 | with the missing assignments they come out right |
| `ClientTree.StaleLinkKeepsClient` | PICA_node.c:1982-2000 | after one removal from three clients, a second one leaves its client in the tree |
| `ClientTree.HandedOverLinked` | PICA_node.c:2082-2114 | after the take-over `left` and `right` are right |
| `ClientTree.HandedOverUp` | PICA_node.c:2082-2114 | after the take-over the `up` links are right |
| `MultiLogin.Logins.Login` | PICA_node.c:3111-3125 | a first login goes into the tree as Connected, a further one behind the primary as Secondary |
| `MultiLogin.Logins.AttachSecondary` | PICA_node.c:1972-1976 | the new login comes right after the primary one |
| `MultiLogin.Logins.Delete` | PICA_node.c:2116-2158 | the client leaves tree or chain, its successor takes over if it was primary, all others stay; exactly when the `up` links stay right |
| `MultiLogin.Logins.DeleteSecondary` | PICA_node.c:2144-2156 | the walk along the chain takes out exactly this client |
| `MultiLogin.OnePrimaryEach` | PICA_node.c:2134-2156 | each logged-in client is on one chain in one place, is Connected exactly if it is in the tree, and no two of one identifier are Connected |
| `MultiLogin.FirstLogin` | PICA_node.c:3120-3125 | a first login keeps all chains |
| `MultiLogin.FurtherLogin` | PICA_node.c:3111-3118 | a further login keeps all chains |
| `MultiLogin.PrimaryLogout` | PICA_node.c:2136-2139 | promoting the successor keeps all chains |
| `MultiLogin.SecondaryLogout` | PICA_node.c:2144-2156 | cutting a client out keeps all chains |
| `MultiLogin.Replay` | PICA_node.c:2116-2158 | every run of logins and logouts from an empty node, with restored `up` links or else up to the first logout that removes a client with two children, keeps tree, chains and states right; the j-th connection has the identifier of the j-th login, all are different, and exactly those not logged out remain |
| `MultiLogin.RemainExactly` | PICA_node.c:2116-2158 | after any run exactly the connections that were made and not ended since are logged in, each once and under its own identifier |
| `Router.EventKeeps` | PICA_node.c:482-617 | every message, login, logout, timeout and closing keeps the table right, and every call moves at most one state along its family's path |
| `Router.ReachableRouter` | PICA_node.c:1404-1620 | in every reachable state: at most one LOCAL call per pair, never LOCAL beside N2NCLR, no call to oneself, clients of calls are those the tree returns, states imply sockets, buffers and nodes, one request per answered search; calls only advance |
| `Router.SecondAnswerIsIdle` | PICA_node.c:1074-1094 | a second node's answer to a search pushes and changes nothing |
| `Router.OneRequestPerWaitingRecord` | PICA_node.c:1083-1091 | an answer pushes as many requests for a caller as records of that caller waited |
| `RouterPushes.PushesWhatIsDue` | PICA_node.c:482-617 | for every event and every message: how often it is pushed, which is never but for the causes named for it (a search is answered exactly if the user is here, a caller is told NOTFOUND exactly on a denial, an answer of another node or with nobody to ask) |
| `RouterPushes.CalleesAreTold` | PICA_node.c:482-520 | in every run the call requests pushed are exactly one for each record created of a call whose callee is here, in order, to the callee's client and with the caller's identifier; all other messages are pushed exactly as often as due |
| `CallRecords.FatesInRun` | PICA_node.c:482-617 | in every run: users, nodes and clock are as the events say; every event deletes exactly the records it is to delete and moves exactly those it is to move, by one state |
| `Router.LinkList.SearchLink` | PICA_node.c:1270-1283 | the first record for the pair |
| `Router.LinkList.FindWaitSearch` | PICA_node.c:1256-1268 | the first call that waits for a search for the user |
| `Router.LinkList.OnN2NFound` | PICA_node.c:1074-1094 | the loop ends, attaches every waiting call and sends exactly one request for each |
| `Router.LinkList.TimeOut` | PICA_node.c:2441-2470 | no inactive call older than 15 survives, and no other call is deleted |
| `Router.LinkList.DeleteUnless` | PICA_node.c:1358-1398 | the walk with deletion keeps exactly the records to keep, in order |
| `Router.LinkList.DeleteByClient` | PICA_node.c:1358-1377 | exactly the calls of the client are deleted |
| `Router.LinkList.DeleteByNodelink` | PICA_node.c:1379-1398 | exactly the calls over the node are deleted |
| `CallSetup.NoReportWithoutPermission` | PICA_node.c:311-399 | at every moment of every run over any number of nodes FOUND was pushed no more often than CONNID was accepted and that no more often than CONNALLOW was taken, and no message goes to a null client |
| `CallSetup.FoundIsPreceded` | PICA_node.c:1074-1169 | whenever a node pushes FOUND(y) to a client, this is the client of a user x at home there, and earlier in the run the node that hosts y received and took CONNALLOW(x) from y and then CONNID(x, y) |
| `CallSetup.FoundIsLogged` | PICA_node.c:311-342 | every FOUND(y) pushed to a client is logged as a report to the user whose client it is |
| `CallSetup.ReportIsPreceded` | PICA_node.c:344-399 | every logged report comes from the node that hosts y and is preceded there by the accepted CONNID and the CONNALLOW |
| `CallSetup.RunLogsAtHome` | PICA_node.c:539-565 | permissions, connections and reports are logged for the node that hosts the callee |
| `CallSetup.EventBalances` | PICA_node.c:539-565 | each event accounts for the permissions, connections and reports of its calls |
| `CallSetup.EventKeepsHome` | PICA_node.c:1096-1195 | calls and messages stay with the nodes of their users |
| `CallRuns.LocalCallComesAbout` | PICA_node.c:482-617 | a call between two users of a node that is allowed, and to which both connect, becomes active with both sockets and the buffers, the callee's client having been told the caller, then the caller's client the callee, and nobody anything else |
| `NetRuns.CallComesAbout` | PICA_node.c:1074-1195 | from any state of the network in which the nodes of two users are connected, with nothing between them on its way and no such call, a run leads to an active record at both, the callee's client having been told the caller and the caller's client that the callee was found |
| `Relay.StartConserves` | PICA_node.c:2905-2967 | in every run, in each direction: bytes received are bytes sent followed by the buffer; full implies jam, so recv is never asked for zero bytes; waiting bytes have a write event; a reader is disarmed only while bytes wait |
| `Relay.StepKeeps` | PICA_node.c:3147-3291 | each read and write event keeps this |
| `Relay.ConservesExactlyWhenOppositeEmpty` | PICA_node.c:3149-3284 | as written, a write callback is sure to conserve the bytes if and only if the other buffer is empty |
| `Relay.AsWrittenWhenOppositeEmpty` | PICA_node.c:3149-3284 | with the other buffer empty the code does what is meant |
| `Relay.WouldBlockDropsErrnoBytes` | PICA_node.c:3203-3216 | after a send that would block, as many bytes of the other direction are dropped as errno says |
| `Relay.SharedResultDrops` | PICA_node.c:3147-3291 | with both buffers in use as many bytes of the other direction are dropped as were sent to p2, or as the stack holds in a callback for p1 |
| `Relay.RunAccounts` | PICA_node.c:2905-2967 | in every run the bytes counted as received are those recv handed over, in order, and as many count as sent as send took |
| `Relay.EndsExactlyWhen` | PICA_node.c:3175-3217 | an event ends the link if and only if the stream it reads is over or its send fails for good |
| `Relay.JamsExactlyWhen` | PICA_node.c:3175-3217 | when a direction is jammed, and when it is read again |
| `Relay.Direction.OnReadable` | PICA_node.c:2912-2934 | one direction of the read callback |
| `Relay.Direction.Use` | PICA_node.c:3175-3217 | one direction of the write callback for a given `ret`, with the unsigned position |
| `Relay.Link.OnWritable` | PICA_node.c:3147-3291 | the write callback with its single `ret` for both directions |
| `Relay.HarmlessRunConserves` | PICA_node.c:3147-3291 | every run of the code as it is, with events of both directions and whatever the stack holds, in which each write callback finds the other buffer empty is the run as meant and conserves the bytes |
| `Relay.OneWayIsHarmless` | PICA_node.c:2905-2967 | as long as one side only sends, each write callback finds the other buffer empty |
| `Relay.RunLink` | PICA_node.c:2905-3291 | the link object driven by any events stops exactly if some write callback finds the other buffer in use, and up to there is in the state of the run as meant |
| `NodeList.WriteList` | PICA_node.c:918-993 | for any neighbours the list is that of the node and of the first 9361 eligible ones, a multiple of 7 octets and at most 65534 |
| `NodeList.EligibleExactly` | PICA_node.c:945-985 | every neighbour with an IPv4 address may be named, except to itself |
| `NodeList.ReadInClient` | PICA_client.c:834-900 | the loop over IPv4, IPv6 and DNS items reports them until the end, an unknown kind, or an item that reaches beyond the buffer |
| `NodeList.ReadInNode` | PICA_node.c:995-1072 | the sender's own address, and of the others, in order, those saved: all, or all that are not in a reserved range; completely if and only if the list is of whole IPv4 items |
| `NodeList.Kept` | PICA_netconf.c:43-58 | exactly the addresses outside the reserved ranges are kept, or all of them if reserved addresses are allowed |
| `NodeList.ClientReadsBack` | PICA_client.c:834-900 | any list of items of all three kinds is reported as it was written |
| `NodeList.NodeReadsBack` | PICA_node.c:995-1072 | any list of IPv4 items is read as it was written |
| `NodeList.ListArrives` | PICA_node.c:918-1072 | both readers get the addresses the writer named, in order |
| `NodeList.NodeHaltsExactlyOnWholeItems` | PICA_node.c:1005-1068 | a node comes to the end of a list if and only if it consists of whole IPv4 items |
| `NodeList.SomeListsDoNotEnd` | PICA_node.c:1005-1068 | an IPv6 item is never passed, and a list cut short is read past its end |
| `NodeList.ListWedgesClientExactlyWhenFull` | PICA_client.c:3048-3061 | the list fills the client's read buffer for good if and only if the node has neighbours for a full list |
| `NodeWait.StepKeeps` | PICA_nodewait.c:197-272 | every step of main loop or worker keeps ownership |
| `NodeWait.EveryRecordHasOneOwnerUnlessLost` | PICA_nodewait.c:87-195 | in every interleaving a worker's record is on the list and not freed, and exactly the lost records have no single owner |
| `NodeWait.ActsOnlyOnItsOwn` | PICA_node.c:3333-3427 | the main loop frees or restarts a record only when no worker has it |
| `NodeWait.ActDoesItsPart` | PICA_node.c:3333-3427 | in every run: a record seen connected, failed, or resolved and skipped is freed and off the list; one seen resolved and not skipped is connecting with the new worker, or lost; any other, and all others, are as they were |
| `NodeWait.WholePass` | PICA_node.c:3333-3427 | a pass with no worker step in between takes exactly the doomed records off the list, frees them, and gives every resolved one that it does not skip a worker that connects |
| `NodeWait.ResultIsFound` | PICA_nodewait.c:87-195 | what a worker writes as its last action is what the main loop finds, whatever happens before it acts on the record |
| `NodeWait.AllOwnedExactlyWhenNoFailure` | PICA_nodewait.c:148-272 | every record has one owner if and only if no thread creation failed and no connecting thread gave up |
| `NodeWait.LostForEver` | PICA_nodewait.c:164-170 | a record that lost its owner never gets one again and is never freed |
| `NodeWait.RecordWithoutThreadStays` | PICA_nodewait.c:216-230 | a record whose thread could not be created stays on the list with no owner |
| `WaitList.NodeWaitList.AddNew` | PICA_nodewait.c:43-57 | the new record comes first |
| `WaitList.NodeWaitList.Delete` | PICA_nodewait.c:59-85 | exactly this record leaves the list, none if it is not there |
| `WaitList.NodeWaitList.Process` | PICA_node.c:3333-3427 | the pass visits every record once although it deletes, keeps the others in order, and starts exactly the resolved ones it does not skip |
| `WaitList.KeepStep` | PICA_node.c:3418-3425 | deleting the record behind the cursor leaves the rest of the walk as it was |
| `WaitList.SameKept` | PICA_node.c:3333-3427 | the records that a pass of the interleaved model keeps are those the walk over the list keeps |
| `Dictionary.DictionaryHash` | iniparser/src/dictionary.c:88-104 | the hash loop on 32-bit words |
| `Dictionary.HashValues` | iniparser/src/dictionary.c:88-104 | the hash is the one-at-a-time hash, by two of its values |
| `Dictionary.Double` | iniparser/src/dictionary.c:38-49 | twice the length, the old contents first |
| `Dictionary.CountIsSize` | iniparser/src/dictionary.c:221-323 | the number of occupied slots is the number of keys of the map |
| `Dictionary.SetToNothingIsNotUnset` | iniparser/src/dictionary.c:211-218 | after setting NULL a look-up gives NULL, after removal the default |
| `Dictionary.SetToNothingLikeUnsetExactlyWhen` | iniparser/src/dictionary.c:211-218 | for all contents, setting NULL and removing give a look-up the same result if and only if it is for another key or its default is NULL |
| `Dictionary.SetNew` | iniparser/src/dictionary.c:266-274 | filling an empty slot adds exactly this pair |
| `Dictionary.UnsetAt` | iniparser/src/dictionary.c:314-322 | emptying a slot removes exactly this key |
| `Dictionary.Grown` | iniparser/src/dictionary.c:249-261 | growth keeps the contents |
| `Dictionary.Dict.constructor` | iniparser/src/dictionary.c:117-133 | an empty map of at least 128 slots |
| `Dictionary.Dict.Find` | iniparser/src/dictionary.c:180-193 | the slot of a key, found exactly if the key is present |
| `Dictionary.Dict.Get` | iniparser/src/dictionary.c:175-194 | the value of a present key, else the default |
| `Dictionary.Dict.Set` | iniparser/src/dictionary.c:221-275 | the map with this pair; `n` counts a new key |
| `Dictionary.Dict.Probe` | iniparser/src/dictionary.c:263-268 | the wrap-around search ends at an empty slot |
| `Dictionary.Dict.Unset` | iniparser/src/dictionary.c:288-323 | the map without the key; `n` counts a removed key |
| `Dictionary.Dict.Replay` | iniparser/src/dictionary.c:175-323 | any sequence of set, get and unset gives the results and leaves the contents of a plain map |

## Left out

- TLS, sockets, `select`, libevent and file I/O: their results are inputs; the certificate check and signature
  verification are opaque.
- The Qt client, SQLite address storage, logging, configuration files, UPnP, base64: plumbing.
- The parser of configuration lines: its meaning rests on `sscanf` and `fgets`.
- Allocation failures, `fwrite`/`fseek` failures, empty files, WIN32 branches.
- Whether a transfer is in fact completed: that it can be is proved; the program has to call for the fragments.
- MULTILOGIN, PING and NEWNODE messages, and the rejection of a client without a usable certificate: they would only add
  easy members.
- The relay of a call between two nodes (N2NMSG, N2NCLR and N2NCLE buffers): only LOCAL links have a relay here; the
  shared `ret` concerns the others in the same way.
- The doubly linked lists of calls, clients and nodes are sequences: the order of their records and deletion during a
  walk are modelled, the relinking of `prev` and `next` is not (for the waiting records it is).
- The lifetime of pointers from new connections to calls, and lists walked while a handler closes its own channel: the
  code does not keep these.
- Router.ReachableRouter: a message about a call without a local caller is recorded as a fault; that it does not happen
  is proved only under `home`, in CallSetup.NoReportWithoutPermission.
- MultiLogin.Logins.Delete: as written it needs `up` links that an earlier removal may have left stale, so a run as
  written is followed only up to the first removal that does so; with `restoring` set every run is covered.
- Relay.StartConserves: about the per-direction meaning of `process_c2c_write`, because the code as written loses bytes
  whenever both buffers are in use.
- NodeList.ReadInNode: where the code would loop for ever or read past the list, the method stops and says so.
- NodeList.ReadInClient: of an item that reaches beyond the read buffer it is only said that it does.
- WaitList.NodeWaitList.Process: one pass without interleaving; interleaving is the subject of NodeWait.
- Handshake.C2c.Dispatch: the address list that a channel offers when it becomes Active, if it is configured to, is a
  push behind the pass and not a part of the handler.
- Handshake.C2c.WriteC2c: which connection the bytes go to is the subject of SendChannel; here only their number counts.
