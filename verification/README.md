# Verified models of the transports, state machines and self-contained algorithms

This project models, in Dafny, the parts of the repository whose correctness rests on state carried from one
call to the next or on a loop with a non-obvious invariant, and proves what those parts are for.

Each component is written the way the source writes it. What the source updates in place is a class (or an
array) whose methods carry the source's branches, error returns and constants; every such method is proved
equal to a function of the old state. What the component promises is then proved about those functions: as an
invariant of every step, as a statement over every run, or as an equation with an independent definition.

| file | models |
|---|---|
| `Bytes.dfy` | fixed-width integers and their little-endian bytes |
| `EosFraming.dfy`, `EosReassembly.dfy`, `EosInvariants.dfy`, `EosTransport.dfy` | cutting engine packets into frames, and rebuilding them: the header codec, the reassembly table, the drop-oldest queues |
| `EosDelivery.dfy`, `EosTheorems.dfy`, `EosQueues.dfy`, `EosExpiry.dfy` | the receiver over whole runs: no mixing, packets read in the order they were handed on, and when partial ones go |
| `EosExactlyOnce.dfy`, `EosTraffic.dfy` | how often a packet is handed on by any run, and what keeps every packet of a run from being dropped |
| `EosAuth.dfy`, `EosSend.dfy` | the login state machine driven by SDK callbacks, and sending under it: what the peers of a whole run have sent |
| `NetChan.dfy`, `NetChanStream.dfy`, `NetChanSender.dfy` | the reliable sub-channel receiver, the stream it reconstructs across wraps of its 10-bit counter, and a sender that cuts it |
| `Sha1Spec.dfy`, `Sha1.dfy` | SHA-1 as FIPS 180-4 defines it (sections 4.1.1, 4.2.1, 5.1.1, 5.3.1 and 6.1.2), and the streaming class that computes it |
| `Sha1Example.dfy` | the worked example of that standard, as proof that the specification is the standard's |
| `Quaternion.dfy`, `Rotation.dfy`, `Transforms.dfy` | quaternions as rotations, and bone hierarchies to world space and back |
| `InsideOut.dfy` | the bit-reversed listing |
| `ClipPoly.dfy` | polygon clipping, plain and with snapping |
| `RandStream.dfy` | the 55-slot lagged Fibonacci ring |
| `ScriptFunctionSearch.dfy` | the scanner for Squirrel function headers |
| `Playlists.dfy` | playlist overrides: the table and its bit stream codec |
| `BatchSplit.dfy` | splitting a draw around background materials |
| `LowLatency.dfy` | latency markers set by two threads |
| `McpServer.dfy`, `McpTasks.dfy` | console capture, and the queue of work for the engine thread |
| `DebugOverlay.dfy` | the overlay list walk |

Conventions: threads appear as interleavings of atomic steps, a step being a block the source runs under one
lock or one hook up to the original function it calls. Clocks, SDK answers, compression and message handlers are
parameters. Floating point is modelled over the reals, except in `RandStream.dfy`, where every sum is shown to
be exact. The payload of one frame is an unspecified constant, constrained only so that the fragment count fits
16 bits. 64-bit counters are unbounded (SHA-1's bit length is taken modulo 2^64); 8-, 16- and 32-bit fields are
bounded types, and every wrap the source relies on is written out.

What turned out not to hold in general is stated as such, with an input that shows it and the exact condition
under which it does hold:

- A packet is not always handed on exactly once. Over every run it is handed on once for each time its fragments
  have arrived completely (`EosExactlyOnce.HandedOnPerRound`), so exactly once if and only if they did so once
  (`DeliveredExactlyOnce`): a repeated frame of a one-fragment packet is a second packet, a late frame of a
  finished packet opens a new entry (`RepeatedSingleFragment`, `LateFrameReopens`).
- A window of the reliable stream can be misread: the 10-bit numbers keep every stream in order if and only if the
  window starts fewer than 1024 fragments behind the receiver or is skipped whole (`NetChanStream.ToldIff`,
  `InReachIff`, with what any other window does in `OutOfReachMisleads`).
- An empty continuation fragment is handed on as a transfer without a buffer if and only if the last transfer has
  ended (`NetChan.NoBufferIff`, `EndedIsSpent`, `RestartIsSpent`, and an input in `EmptyContinuationHasNoBuffer`).
- The loop of `InsideOut` ends if and only if the total is at most 2^30; beyond, its 32-bit k doubles to -2^31 and
  then to 0 for ever (`InsideOut.LoopEndsIff`).
- `ready` does not imply a live connection notification; the one step that breaks it is characterised exactly
  (`EosAuth.ReadyLosesNotification`, with reachable instances in `ReadyWithoutNotification`).
- The 30-second cap on login retries is never reached: the exponent is cut at 4 first, so the longest wait is 16
  seconds (`EosAuth.FailureBacksOff`).
- Tasks of the engine thread do not always run in the order they were pushed, as a function may enter Resolve
  again; here that depends on what the script of a task executes, as Resolve is only called by the console command
  at src/engine/mcp_server.cpp:1083. Over every run, whatever is cancelled in it and wherever it ends, they do if
  and only if of no two tasks that met, an older one in a Resolve further out and a younger one in the queue, both
  are called (`McpTasks.PushOrderIff`, with an input in `SomeTaskOvertakes`).
- A received playlist table may repeat a name, which `Set` never does; its names are distinct if and only if no two
  names of the message are alike up to a NUL (`Playlists.ReceivedNamesDistinctIff`, `ReceivedNamesMayRepeat`).

## Model

| member | source | states |
|---|---|---|
| `EosFraming.FragmentBounds` | src/eos/eos.cpp:970-976 | the fragments of a packet tile it: every index starts inside it, only the last may be short, and the last one ends it |
| `EosFraming.FragmentCountBounded` | src/eos/eos.cpp:54-55 | a packet of up to 256 KiB never needs more fragments than the limit, which fits the 16-bit count |
| `EosFraming.DecodeEncodeHeader` | src/eos/eos.cpp:977-987 | the 20 header bytes decode to the header that was written |
| `EosFraming.EncodeDecodeHeader` | src/eos/eos.cpp:299-300 | and every 20 bytes are the encoding of the header they decode to |
| `EosFraming.HeaderLayout` | src/eos/eos.cpp:58-69 | each field of the header stands at its place, least significant byte first |
| `EosFraming.FrameBegins` | src/eos/eos.cpp:977-987 | every frame begins with INS1, the version 1 and its socket |
| `EosFraming.ParseOfFrame` | src/eos/eos.cpp:299-318 | every frame the sender builds is accepted, as the fragment it was cut from |
| `EosFraming.AcceptedIffFrame` | src/eos/eos.cpp:296-316 | a byte string passes the receiver's checks if and only if it is a frame of some packet of legal size |
| `EosInvariants.EnqueueKeepsLongestSuffix` | src/eos/eos.cpp:278-292 | enqueueing keeps the longest suffix of the queue that fits with the new packet within 512 packets and 8 MiB, in order, and appends the packet |
| `EosInvariants.CleanupEffect` | src/eos/eos.cpp:253-265 | clean-up removes exactly the expired entries |
| `EosInvariants.StaysFiveSeconds` | src/eos/eos.cpp:253-265 | what is left is exactly what was updated in the last five seconds, in its order |
| `EosInvariants.MakeRoomEffect` | src/eos/eos.cpp:267-276 | making room ends with room for the new packet, having only removed entries |
| `EosInvariants.MakeRoomEvictsOldest` | src/eos/eos.cpp:267-276 | every entry evicted is at least as stale as every entry kept, and putting the last one evicted back would leave no room |
| `EosInvariants.CountTrueUpdate` | src/eos/eos.cpp:357-362 | setting a clear flag raises the number of set flags by one |
| `EosInvariants.CountTrueFull` | src/eos/eos.cpp:363 | the count equals the number of fragments exactly when every flag is set |
| `EosInvariants.StoreKeepsCount` | src/eos/eos.cpp:356-362 | storing a fragment, new or repeated, keeps receivedCount the number of set flags and writes inside the entry |
| `EosInvariants.ProcessFrameKeepsInv` | src/eos/eos.cpp:294-372 | any byte string from any sender keeps the bounds: 64 entries, 8 MiB, 512 packets and 8 MiB a queue, distinct keys, every entry partial with a true count |
| `EosDelivery.ReachableInv` | src/eos/eos.cpp:243-372 | so do clean-up ticks, reads and resets: the invariant holds after every run |
| `EosExpiry.TickExpires` | src/eos/eos.cpp:253-265 | after a tick exactly the entries updated in the last five seconds are left, in their order, and nothing else has changed |
| `EosExpiry.FragmentExpires` | src/eos/eos.cpp:320-372 | after an accepted fragment of several nothing in the table is older than five seconds either; of the other packets, what went was older, or had to make room: then its packet was new, the table or its bytes full, and all that is left was updated no earlier |
| `EosExpiry.FrameExpires` | src/eos/eos.cpp:294-372 | so it is after every frame that passes the checks |
| `EosTransport.Packets.constructor` | src/eos/eos.cpp:138-141 | the packet state starts empty |
| `EosTransport.Packets.ResetPacketQueue` | src/eos/eos.cpp:243-251 | a reset empties both queues and the table and zeroes every counter |
| `EosTransport.Packets.EraseReassembly` | src/eos/eos.cpp:369-370 | erasing an entry keeps the byte counter the sum of what is left, without underflow |
| `EosTransport.Packets.CleanupReassembliesLocked` | src/eos/eos.cpp:253-265 | the erasing loop leaves exactly what was updated in the last five seconds, in its order |
| `EosTransport.Packets.MakeReassemblyRoomLocked` | src/eos/eos.cpp:267-276 | the evicting loop is repeated removal of the stalest entry |
| `EosTransport.Packets.EnqueuePacketLocked` | src/eos/eos.cpp:278-292 | the popping loop leaves the specified suffix in the one queue and does not touch the other; the byte counter stays the sum |
| `EosTransport.Packets.CollectFragment` | src/eos/eos.cpp:356-371 | the fragment is stored once, and the packet is queued and its entry erased exactly when it was the last one missing |
| `EosTransport.Packets.ProcessFragment` | src/eos/eos.cpp:319-372 | an accepted fragment has the specified effect on queues, table and counters |
| `EosTransport.Packets.ProcessFrame` | src/eos/eos.cpp:294-372 | any byte string has the specified effect, a rejected one none |
| `EosTransport.Packets.ReceivePacket` | src/eos/eos.cpp:1021-1052 | a read takes the oldest packet of its queue, if there is one, into the engine packet: its sender, the port of the peer, the socket, both sizes and the bytes, nothing behind them |
| `EosTransport.RemotePortIs` | src/eos/eos.cpp:1044-1046 | the peer of a server is at the client port and that of a client at the host port, either standing in for the other where it is not set |
| `EosTransport.NetworkOrder` | src/eos/eos.cpp:1046 | in network order |
| `EosTransport.NetPacket.Fill` | src/eos/eos.cpp:1039-1051 | the bytes and every field of the header are those of the packet |
| `EosTransport.CheckFrame` | src/eos/eos.cpp:296-316 | the checks of a frame accept what the specification parses, as that fragment |
| `EosTransport.BuildFrame` | src/eos/eos.cpp:975-989 | the reused frame buffer holds exactly the frame of this fragment, nothing of the one before |
| `EosSend.SendPacket` | src/eos/eos.cpp:948-1019 | a packet is refused without effect, or uses one packet id, no longer the next one, and puts a prefix of its frames on the wire, all of them exactly when it succeeds; the error and the request for a login follow the first refusal of the SDK, and after an invalid authentication ready is clear |
| `EosSend.IdsRepeatIff` | src/eos/eos.cpp:969 | the ids of two packets not refused are the same if and only if a multiple of 2^32 packets lies between them |
| `EosSend.SentOnce` | src/eos/eos.cpp:948-1019 | of up to 2^32 packets since the first id was drawn, each is the only one under its key |
| `EosSend.SentByWasSent` | src/eos/eos.cpp:948-1019 | and what is held for a key was sent under it |
| `EosSend.LogsAreHonest` | src/eos/eos.cpp:948-1019 | frames of what peers sent so are honest |
| `EosSend.SendersAreNeverMixed` | src/eos/eos.cpp:294-372 | so peers that number their packets as the source does are never mixed, whatever becomes of their frames |
| `EosDelivery.CollectAtEffect` | src/eos/eos.cpp:356-371 | taking a fragment either emits its whole entry and removes it, or updates it, and leaves every other key alone |
| `EosDelivery.AcceptEffect` | src/eos/eos.cpp:320-372 | an accepted frame changes nothing under other keys but evictions, and its own key holds the updated entry or nothing |
| `EosDelivery.StoreCoherent` | src/eos/eos.cpp:357-362 | an entry whose set flags cover bytes of a payload still does after a fragment of that payload |
| `EosDelivery.FullIsPayload` | src/eos/eos.cpp:363-368 | an entry with every flag set is the payload, byte for byte |
| `EosTheorems.NoMixing` | src/eos/eos.cpp:294-372 | over every run of honest senders with loss, duplication, reordering, expiry, eviction and reset, every packet handed on or queued is one its sender sent to that socket |
| `EosQueues.ReadInOrder` | src/eos/eos.cpp:243-372 | over every run each queue is the end of all that was handed on to its socket, and what the engine has read stands before that, in the order it was handed on and no place twice |
| `EosExactlyOnce.StepOwn` | src/eos/eos.cpp:320-372 | a frame of a packet completes it exactly when it is the last one missing |
| `EosExactlyOnce.HandedOnPerRound` | src/eos/eos.cpp:294-372 | with any repetitions and order, among any other traffic that does not drop the entry, a packet is handed on once for every time its fragments were complete, and the entry holds exactly those that came since |
| `EosExactlyOnce.DeliveredExactlyOnce` | src/eos/eos.cpp:294-372 | so it is handed on exactly once if and only if they were complete exactly once, and leaves no entry if and only if none came since |
| `EosExactlyOnce.HandedOnStandsLast` | src/eos/eos.cpp:278-292 | what an event hands on stands last in the queue of its socket |
| `EosExactlyOnce.RoundStandsLast` | src/eos/eos.cpp:363-371 | the event that completes a packet puts it last in its queue |
| `EosTraffic.NoEviction` | src/eos/eos.cpp:267-276 | with room for the packets incomplete at a time and the one that begins, making room removes nothing |
| `EosTraffic.OthersKept` | src/eos/eos.cpp:320-372 | a frame of one packet leaves the fresh entries of the others as they are when nothing has to be evicted |
| `EosTraffic.TrafficDelivers` | src/eos/eos.cpp:243-372 | all packets of a run at once, however many: whenever one of several fragments begins, it, those incomplete then and what the table held at first are at most 64 and 8 MiB; no reset, and no incomplete packet idle for more than 5 s: none is ever dropped, and each is handed on once for every time its fragments were complete, however they are interleaved |
| `EosExactlyOnce.SteadyRun` | src/eos/eos.cpp:253-265 | an entry whose frames come no more than 5 s apart is never expired |
| `EosExactlyOnce.AnyOrderDelivers` | src/eos/eos.cpp:294-372 | the frames of one packet of up to 256 KiB, in any order and with any repetitions before completion, no two in a row more than 5 s apart, give exactly one packet equal to the payload, which stands last in its queue, and no partial entry |
| `EosExactlyOnce.SentOrderDelivers` | src/eos/eos.cpp:973-1015 | in particular the frames of any sendable packet in the order they were sent, at any such times |
| `EosExactlyOnce.RepeatedSingleFragment` | src/eos/eos.cpp:320-327 | a repeated frame of a one-fragment packet is delivered again |
| `EosExactlyOnce.LateFrameReopens` | src/eos/eos.cpp:335-348 | a frame after completion opens a new partial entry and delivers nothing |
| `EosAuth.StepKeepsInv` | src/eos/eos.cpp:374-402 | every callback, tick, send failure, set-up and shutdown keeps the login invariant |
| `EosAuth.EveryRunKeepsInv` | src/eos/eos.cpp:485-663 | over every run: at most one SDK request is outstanding, matching CREATING and LOGGING_IN while running; ready implies a local user; READY implies a registered notification |
| `EosAuth.NeverStuck` | src/eos/eos.cpp:641-663 | a running machine past its next attempt is READY, waits for its one request, or makes progress at its next look at the clock |
| `EosAuth.FailureBacksOff` | src/eos/eos.cpp:387-395 | a failure is retried 1 to 16 s later, doubling up to 16 until something succeeds |
| `EosAuth.NoEarlyRequest` | src/eos/eos.cpp:643-653 | no request is begun before its time or from another state |
| `EosAuth.ReadyEdges` | src/eos/eos.cpp:374-577 | over every run ready rises exactly with a registered notification or the login of the same user, falls exactly with a refused authentication, a logout of the local user, a stop, a shutdown or a failed set-up, and stays through everything else |
| `EosAuth.InitializedEdges` | src/eos/eos.cpp:753-941 | initialized rises with a successful set-up and falls with a stop, a shutdown or a failed set-up |
| `EosAuth.UserEdges` | src/eos/eos.cpp:404-551 | the user and its address are those of the last successful login until the transport is taken down; the port is the configured one, or the last two bytes of the first address |
| `EosAuth.LoginFollows` | src/eos/eos.cpp:374-653 | a refused or expired authentication, a logout of the local user and a device id are answered by a login at the next look at the clock |
| `EosAuth.SetupFollows` | src/eos/eos.cpp:753-839 | a set-up is followed by the request for a device id |
| `EosAuth.SetupFails` | src/eos/eos.cpp:753-932 | a set-up that fails leaves nothing behind and can be tried again |
| `EosAuth.NotificationFollows` | src/eos/eos.cpp:509-663 | the login of another user is followed by the registration of the notification, and the machine is ready |
| `EosAuth.SuccessResetsRetries` | src/eos/eos.cpp:485-551 | any success ends the backing off |
| `EosAuth.ReadyLosesNotification` | src/eos/eos.cpp:527-550 | from a state where ready implies a notification, ready is left without one if and only if a login succeeds, while ready, for a user whose address differs or cannot be had |
| `EosAuth.ReadyWithoutNotification` | src/eos/eos.cpp:541-550 | such a state is reachable for any two users not seen to be the same, one user whose address cannot be had included |
| `EosAuth.EosState.constructor` | src/eos/eos.cpp:100-142 | the machine starts stopped and idle |
| `EosAuth.EosState.RequestLoginLocked` | src/eos/eos.cpp:374-385 | clears ready if asked to; asks for a login now unless one is under way |
| `EosAuth.EosState.ScheduleRetryLocked` | src/eos/eos.cpp:387-395 | plans the retry and counts the failure |
| `EosAuth.EosState.FinishAuthenticationLocked` | src/eos/eos.cpp:397-402 | READY and ready together |
| `EosAuth.EosState.RemoveConnectionNotificationLocked` | src/eos/eos.cpp:429-436 | forgets the notification |
| `EosAuth.EosState.AddConnectionNotificationLocked` | src/eos/eos.cpp:438-483 | replaces the notification; fails without a P2P handle or a user, or when the SDK gives none |
| `EosAuth.EosState.UpdateLocalEndpointLocked` | src/eos/eos.cpp:404-427 | takes the address of the user if it can be had, and its last two bytes as the port if none is set |
| `EosAuth.EosState.ProcessAuthenticationLocked` | src/eos/eos.cpp:641-663 | one look at the clock has the effect of the Process event |
| `EosAuth.EosState.CreateDeviceIdComplete` | src/eos/eos.cpp:485-507 | success and duplicate go on to login, failure backs off, a pending result changes nothing |
| `EosAuth.EosState.LoginCompleted` | src/eos/eos.cpp:509-551 | success takes the user and its endpoint, keeps or replaces the notification depending on the user, and resets the queues exactly when it replaces it |
| `EosAuth.EosState.AuthExpired` | src/eos/eos.cpp:553-563 | refreshes the login without closing the transport |
| `EosAuth.EosState.LoginStatusChange` | src/eos/eos.cpp:565-577 | a logout of the local user clears ready and asks for a login |
| `EosAuth.EosState.AddAuthNotificationsLocked` | src/eos/eos.cpp:579-597 | both notifications are held, or the call fails |
| `EosAuth.EosState.RemoveAuthNotificationsLocked` | src/eos/eos.cpp:599-611 | forgets both |
| `EosAuth.EosState.ShutdownLocked` | src/eos/eos.cpp:727-751 | every notification, the user, its address and the platform are released, outstanding requests with it, ready is cleared and the packet state is empty |
| `EosAuth.EosState.SetupLocked` | src/eos/eos.cpp:753-839 | success needs every step of the SDK and starts at NEED_DEVICE_ID with a new first packet id; any later failure leaves the machine shut down, a failure to initialize leaves it alone |
| `EosAuth.EosState.ShutdownNetworking` | src/eos/eos.cpp:933-941 | stops the machine and clears ready |
| `NetChan.Channel.FreeReceiveList` | src/engine/net_chan.cpp:54-64 | drops the partial transfer |
| `NetChan.Channel.ReadHeader` | src/engine/net_chan.cpp:70-99 | a new nonce restarts the session, the same one or none leaves it; the flags follow |
| `NetChan.Channel.BeginTransfer` | src/engine/net_chan.cpp:151-159 | the first fragment opens an empty transfer of the announced size |
| `NetChan.Channel.StoreBody` | src/engine/net_chan.cpp:147-149 | the bytes of a fragment are appended to the transfer |
| `NetChan.Channel.FinishTransfer` | src/engine/net_chan.cpp:168-195 | a whole transfer is decompressed if need be and handed on once, and its buffer freed |
| `NetChan.Channel.TakeWithoutBuffer` | src/engine/net_chan.cpp:147-195 | without a buffer, an empty continuation when nothing is left to receive is handed on as no bytes |
| `NetChan.Channel.TakeFragment` | src/engine/net_chan.cpp:119-195 | a fragment in its place has the specified effect, including each refusal |
| `NetChan.Channel.ReadSubChannelData` | src/engine/net_chan.cpp:66-201 | the loop reads a window as specified, and ends where the specification refuses |
| `NetChan.ReadKeepsReceiveOk` | src/engine/net_chan.cpp:109-201 | whatever is read, a transfer under way has begun and is not whole, and without one nothing is left to receive |
| `NetChan.RestartKeepsReceiveOk` | src/engine/net_chan.cpp:54-90 | so does a nonce; a new one leaves nothing to receive |
| `NetChan.WindowKeepsReceiveOk` | src/engine/net_chan.cpp:66-201 | so does every window |
| `NetChan.NoBufferIff` | src/engine/net_chan.cpp:147-188 | a fragment makes ProcessMessages be called without a buffer if and only if it is an empty continuation and the receive list is spent |
| `NetChan.EndedIsSpent` | src/engine/net_chan.cpp:161-192 | the list is spent after every transfer that ends, until the next one begins |
| `NetChan.RestartIsSpent` | src/engine/net_chan.cpp:54-90 | a new nonce leaves it spent exactly when nothing was received since it was last empty |
| `NetChan.NoEmptyNoBare` | src/engine/net_chan.cpp:109-201 | a window without an empty continuation hands on whole transfers only |
| `NetChan.EmptyContinuationHasNoBuffer` | src/engine/net_chan.cpp:147-188 | a transfer of one fragment and an empty continuation behind it: the second is handed on without a buffer |
| `NetChanSender.CutIsWellFormed` | src/engine/net_chan.cpp:113-139 | bytes can be cut into a first fragment, full ones of 0x230 and a last one if and only if they are at most 0x40000 |
| `NetChanSender.CutCount` | src/engine/net_chan.cpp:113-139 | there is one fragment for every 0x230 bytes begun |
| `NetChanSender.TooLargeIsRefused` | src/engine/net_chan.cpp:121-139 | a window with a transfer of more than 0x40000 bytes or a last fragment of more than 0x230 is refused, skipped or not |
| `NetChanSender.SkippedIff` | src/engine/net_chan.cpp:121-145 | and a window that is skipped whole is refused for nothing else |
| `NetChanSender.NonceFlags` | src/engine/net_chan.cpp:68-99 | the acknowledgement is due from the window of a new nonce until one without a nonce, and only that window is not in the reliable state |
| `NetChanSender.PayloadsArrive` | src/engine/net_chan.cpp:66-201 | payloads of any bytes up to 0x40000, cut and sent behind a new nonce, are handed on one by one, whole and in order |
| `NetChanSender.TenBits` | src/engine/net_chan.cpp:101-107 | a window behind the receiver is taken where it stands if it starts less than 1024 fragments back, and misread if it starts further back and is longer than that |
| `NetChanStream.AtIsPrefix` | src/engine/net_chan.cpp:142-195 | the receiver after n fragments has handed on exactly the transfers that end within them, in order and once |
| `NetChanStream.TakeNext` | src/engine/net_chan.cpp:147-195 | one fragment in its place moves the receiver from n to n + 1 |
| `NetChanStream.ReadStream` | src/engine/net_chan.cpp:109-201 | reading from behind skips exactly the fragments already taken and takes the others |
| `NetChanStream.SkipIsGap` | src/engine/net_chan.cpp:101-107 | the skip count is the distance behind the receiver modulo 1024 |
| `NetChanStream.ToldIff` | src/engine/net_chan.cpp:101-107 | it points to the next fragment, or behind the window, exactly for windows that start fewer than 1024 fragments behind and those skipped whole |
| `NetChanStream.ToldAhead` | src/engine/net_chan.cpp:101-107 | in particular for those that start ahead by d and hold at most 1024 - d fragments |
| `NetChanStream.ReadSlice` | src/engine/net_chan.cpp:66-201 | such a window advances the counter to max(n, end) if it starts at or behind the receiver and nothing is refused, and otherwise changes nothing |
| `NetChanStream.InOrderExactlyOnce` | src/engine/net_chan.cpp:66-201 | over every run of lost, repeated and reordered windows of that kind, across every wrap of the counter, what is handed on is an in-order, exactly-once prefix of the transfers sent |
| `NetChanStream.NewNonceRestarts` | src/engine/net_chan.cpp:78-90 | a new nonce starts the new stream at its beginning, whatever was pending |
| `NetChanStream.NothingBeforeNonce` | src/engine/net_chan.cpp:101-107 | before the first nonce a window changes nothing |
| `NetChanStream.OutOfReachMisleads` | src/engine/net_chan.cpp:101-195 | any other window gives a receiver between transfers a fragment that is not its next; a whole transfer there is handed on again or before its turn |
| `NetChanStream.InReachIff` | src/engine/net_chan.cpp:66-201 | the condition is exact: for every position of the receiver and every window, each stream stays in order if and only if it holds |
| `Sha1.ChoiceIsCh` | src/mathlib/sha1.cpp:29-34 | the multiplexer form of the choice function is the Ch of FIPS 180-4 |
| `Sha1.MajorityIsMaj` | src/mathlib/sha1.cpp:38-40 | the and-or form of the majority function is the Maj of FIPS 180-4 |
| `Sha1.MixIsF` | src/mathlib/sha1.cpp:28-43 | the function of each macro is the f of its round |
| `Sha1.RingReads` | src/mathlib/sha1.cpp:26 | the four ring positions read are the four earlier schedule words asked for |
| `Sha1.RingWrites` | src/mathlib/sha1.cpp:26 | the position written is the oldest word, and the ring holds the last 16 words again |
| `Sha1.NextWordIsW` | src/mathlib/sha1.cpp:26 | the word written is W of the 80-word schedule |
| `Sha1.MacroSumIsRound` | src/mathlib/sha1.cpp:29-43 | the sum a macro adds is the sum of its round, in any order |
| `Sha1.RoundMacro` | src/mathlib/sha1.cpp:29-43 | a macro with its registers renamed is one round with its registers shifted |
| `Sha1.ReadWord` | src/mathlib/sha1.cpp:26-34 | the word used by round i is W(i), and the ring moves on |
| `Sha1.FiveRounds` | src/mathlib/sha1.cpp:155-234 | five macro calls are five rounds and bring every register back to its name |
| `Sha1.SHA1.constructor` | src/mathlib/sha1.cpp:45-48 | a new object hashes the empty message |
| `Sha1.SHA1.Reset` | src/mathlib/sha1.cpp:127-139 | a reset object hashes the empty message |
| `Sha1.SHA1.Transform` | src/mathlib/sha1.cpp:145-245 | 80 macro calls are the compression function of section 6.1.2 |
| `Sha1.SHA1.Update` | src/mathlib/sha1.cpp:50-69 | an update appends to the message hashed; between updates the buffer holds fewer than 64 bytes |
| `Sha1.SHA1.Refill` | src/mathlib/sha1.cpp:58-60 | bytes read into the buffer are the next of the message |
| `Sha1.SHA1.TransformBuffer` | src/mathlib/sha1.cpp:62-68 | a full buffer becomes one more hashed block |
| `Sha1.SHA1.FillBuffer` | src/mathlib/sha1.cpp:80-86 | the rest is filled with a one bit and zeros to a block |
| `Sha1.SHA1.SpillBlock` | src/mathlib/sha1.cpp:91-98 | when the length does not fit, that block is hashed first and its words cleared |
| `Sha1.SHA1.TransformWithLength` | src/mathlib/sha1.cpp:100-103 | the last block ends in the 64-bit length, high word first |
| `Sha1.SHA1.Final` | src/mathlib/sha1.cpp:75-117 | the result is the hexadecimal FIPS 180-4 digest of everything updated, and the object starts afresh |
| `Sha1.LastBlockShort` | src/mathlib/sha1.cpp:80-103 | with at most 55 bytes left the padded message of section 5.1.1 ends in one block |
| `Sha1.LastBlockLong` | src/mathlib/sha1.cpp:88-103 | with more it ends in two, the last of them zeros and the length |
| `Sha1.BitCount` | src/mathlib/sha1.cpp:77-78 | 64 times the blocks transformed plus the buffer is the message length in bits, modulo 2^64 |
| `Sha1.AppendBlock` | src/mathlib/sha1.cpp:62-68 | hashing one more whole block extends the hash of the blocks before |
| `Sha1.PackBytesIsWordOf` | src/mathlib/sha1.cpp:249-253 | or-ing shifted bytes is their big-endian word |
| `Sha1.BufferToBlock` | src/mathlib/sha1.cpp:247-254 | the block is the 16 big-endian words of the buffer |
| `Sha1.Read` | src/mathlib/sha1.cpp:256-262 | a read gives up to max bytes, and the stream stays good exactly when there were that many |
| `Sha1.HashPieces` | src/mathlib/sha1.cpp:50-117 | any way of splitting a message over updates gives its FIPS 180-4 digest |
| `Sha1Spec.LengthSplits` | src/mathlib/sha1.cpp:100-103 | the two words that end the padding are the upper and the lower half of the length in bits |
| `Sha1Spec.HexReadsBack` | src/mathlib/sha1.cpp:105-111 | the forty digits read back as the five words |
| `Sha1Example.AbcDigest` | src/mathlib/sha1.cpp:28-43 | the digest of abc is the one the standard gives |
| `Quaternion.ConjugateCancels` | src/mathlib/mathlib_base.cpp:2037-2044 | multiplying by a unit quaternion and then by its conjugate gives back the other factor |
| `Quaternion.ProductUnit` | src/mathlib/mathlib_base.cpp:2041-2044 | the product of unit quaternions is one |
| `Quaternion.InvertUnit` | src/mathlib/mathlib_base.cpp:1888-1905 | the inverse of a unit quaternion is its conjugate |
| `Quaternion.RotateBack` | src/mathlib/mathlib_base.cpp:1907-1915 | rotating by a unit quaternion and then by its conjugate gives the vector back |
| `Quaternion.RotatePlus` | src/mathlib/mathlib_base.cpp:1907-1915 | rotation is additive |
| `Quaternion.RotateNegate` | src/mathlib/mathlib_base.cpp:1684-1713 | a quaternion and the negative alignment may choose rotate alike |
| `Rotation.UnitProducts` | src/mathlib/mathlib_base.cpp:2041-2044 | ij = k, jk = i, ki = j and ii = jj = kk = -1 |
| `Rotation.OneIsNeutral` | src/mathlib/mathlib_base.cpp:2041-2044 | one is neutral on either side |
| `Rotation.ProductAssociates` | src/mathlib/mathlib_base.cpp:2041-2044 | the product is associative |
| `Rotation.ConjugateOfProduct` | src/mathlib/mathlib_base.cpp:1883-1886 | conjugating turns products around |
| `Rotation.RotateIsSandwich` | src/mathlib/mathlib_base.cpp:1907-1915 | for a unit q, q (v, 0) q* is (v rotated by q, 0) |
| `Rotation.RotateProduct` | src/mathlib/mathlib_base.cpp:1907-1915 | rotating by a product is rotating by the right factor and then by the left one |
| `Rotation.AlignIsNearer` | src/mathlib/mathlib_base.cpp:1684-1713 | aligning gives the quaternion or its negative, on the side of the first, and leaves one already there |
| `Transforms.ConcatComposes` | src/mathlib/transform.cpp:25-33 | concatenation is composition of what transforms do to points |
| `Transforms.ConcatAssociates` | src/mathlib/transform.cpp:25-33 | and associative up to the sign of the orientation |
| `Transforms.InvertUndoes` | src/mathlib/transform.cpp:103-112 | the inverse undoes a transform on every point, either way round |
| `Transforms.ConcatInverse` | src/mathlib/transform.cpp:25-33 | concatenating with the inverse of a unit transform undoes concatenating with it, up to the sign of the orientation |
| `Transforms.TransformToWorldSpace` | src/mathlib/transform.cpp:134-149 | in place, every bone ends at the composition of its ancestors, computed recursively: it takes every point where carrying it up from parent to parent takes it |
| `Transforms.WorldPlaces` | src/mathlib/transform.cpp:134-149 | the same for one bone, on values |
| `Transforms.TransformToParentSpace` | src/mathlib/transform.cpp:152-175 | in place, roots are untouched and every other bone is multiplied by the inverse of its parent as it was in world space, cached at first use |
| `Transforms.WorldUnit` | src/mathlib/transform.cpp:143-148 | orientations stay unit down the hierarchy |
| `Transforms.RoundTrip` | src/mathlib/transform.cpp:134-175 | for any hierarchy with parents first and unit orientations, to world space and back leaves every position, every rotation and the roots as they were |
| `Transforms.ConcatRestores` | src/mathlib/transform.cpp:25-33 | a parent rebuilt up to the sign of its orientation puts back a bone taken out of it |
| `Transforms.WorldRestored` | src/mathlib/transform.cpp:134-175 | so do all ancestors of a bone, down any hierarchy |
| `Transforms.RoundTripBack` | src/mathlib/transform.cpp:134-175 | and to parent space and back to world space leaves every position, every rotation and the roots as they were |
| `Transforms.ParentSpaceUndoesWorldSpace` | src/mathlib/transform.cpp:161-174 | the same for one bone, on values |
| `InsideOut.CountSplits` | src/mathlib/halton.cpp:42-51 | the two halvings of m count the two residue classes the current one splits into |
| `InsideOut.CountIsLength` | src/mathlib/halton.cpp:40-52 | m is the number of values left in the current class |
| `InsideOut.InsideOut` | src/mathlib/halton.cpp:37-55 | with 32-bit integers, for every total up to 2^30, no operation overflows and the loop returns entry nCounter of the recursive even-then-odd listing |
| `InsideOut.LoopEndsIff` | src/mathlib/halton.cpp:40 | the loop ends if and only if the total is at most 2^30 |
| `InsideOut.KNeverLarger` | src/mathlib/halton.cpp:40-52 | beyond, k wraps to -2^31 and stays 0 and never reaches the total |
| `InsideOut.ReverseOrder` | src/mathlib/halton.cpp:42-47 | of two values that first differ in a bit, the one with it clear comes first reversed |
| `InsideOut.ListingOrdered` | src/mathlib/halton.cpp:37-55 | the listing of a residue class has exactly its members, in bit-reversed order |
| `InsideOut.BitReversedBijection` | src/mathlib/halton.cpp:37-55 | the listing is a permutation of [0, nTotal) in increasing order of the bits reversed, whatever width holds them |
| `ClipPoly.SplitOnPlane` | src/mathlib/mathlib_base.cpp:4546-4557 | a split point lies on the plane, strictly inside the edge it cuts |
| `ClipPoly.DistanceRises` | src/mathlib/mathlib_base.cpp:4491 | the distance is minus the constant at the origin and rises along each axis with that component of the normal |
| `ClipPoly.AlongNormal` | src/mathlib/mathlib_base.cpp:4491 | along a unit normal it rises by the length of the way |
| `ClipPoly.PointEnds` | src/mathlib/mathlib_base.cpp:4548-4557 | the points of an edge run from its one end to the other and are all different |
| `ClipPoly.EmittedSize` | src/mathlib/mathlib_base.cpp:4524-4561 | after any number of vertices the output holds one for each not behind the plane and one for each crossing |
| `ClipPoly.ClippedSize` | src/mathlib/mathlib_base.cpp:4524-4563 | so front plus on plus crossings in all, at most one more than the input with two crossings |
| `ClipPoly.SnapChangesNothing` | src/mathlib/mathlib_base.cpp:4549-4557 | snapping a coordinate changes nothing for a unit normal on a point of the plane, or for a normal without a component 1 or -1 |
| `ClipPoly.SnappedIsPlain` | src/mathlib/mathlib_base.cpp:4773-4777 | the snapping and the precise function give the same polygon for such normals |
| `ClipPoly.ClippedInFront` | src/mathlib/mathlib_base.cpp:4477-4564 | every output vertex is an input vertex or a point inside an edge on the plane, and none is more than epsilon behind it |
| `ClipPoly.ClippedInOrder` | src/mathlib/mathlib_base.cpp:4524-4564 | the output runs once along the outline, in its direction |
| `ClipPoly.ClipTwice` | src/mathlib/mathlib_base.cpp:4477-4564 | clipping what was clipped changes nothing |
| `ClipPoly.EmittedGenuine` | src/mathlib/mathlib_base.cpp:4734-4786 | the same of every partial output of the precise function |
| `ClipPoly.Classify` | src/mathlib/mathlib_base.cpp:4489-4509 | distances, sides and counts of all vertices, the first repeated after the last |
| `ClipPoly.CopyVerts` | src/mathlib/mathlib_base.cpp:4514-4522 | an outline with nothing behind the plane is copied |
| `ClipPoly.SplitPoint` | src/mathlib/mathlib_base.cpp:4548-4557 | the loop over coordinates computes the snapped split point |
| `ClipPoly.EmitVertex` | src/mathlib/mathlib_base.cpp:4527-4560 | one vertex and its edge append what they should |
| `ClipPoly.ClipPolyToPlane` | src/mathlib/mathlib_base.cpp:4477-4564 | the output array begins with the clipped polygon and its length is returned |
| `ClipPoly.EmitVertexPrecise` | src/mathlib/mathlib_base.cpp:4738-4783 | the same on flat coordinates, without snapping |
| `ClipPoly.ClipPolyToPlanePrecise` | src/mathlib/mathlib_base.cpp:4680-4787 | the flat output is the plain clipped polygon of the flat input |
| `ClipPoly.FlatUnflat` | src/mathlib/mathlib_base.cpp:4738-4741 | flat coordinates and vertices are the same thing |
| `RandStream.AddMod1OnGrid` | src/mathlib/randsse.cpp:40-45 | the sum, its reduction and the result are multiples of 2^-16 that a float holds exactly, and the result is in [0, 1) |
| `RandStream.SequenceOnGrid` | src/mathlib/randsse.cpp:38-56 | every value of the unbounded recurrence from a seed on the grid stays on it |
| `RandStream.LanesAreApart` | src/mathlib/randsse.cpp:38-56 | each of the four lanes runs through the recurrence on its own |
| `RandStream.SlotStep` | src/mathlib/randsse.cpp:49-53 | a wrapping decrement of a ring pointer is the slot of the next index modulo 55 |
| `RandStream.NextSeedInverts` | src/mathlib/randsse.cpp:33 | no two seeds have the same next one |
| `RandStream.SeedValueIs` | src/mathlib/randsse.cpp:32 | a value is the upper half of its seed as a fraction |
| `RandStream.SIMDRandStreamContext.Seed` | src/mathlib/randsse.cpp:25-36 | seeding fills the ring with the seed sequence and makes it the start of the recurrence |
| `RandStream.SIMDRandStreamContext.RandSIMD` | src/mathlib/randsse.cpp:38-56 | each call returns the next value of x(n) = (x(n-24) + x(n-55)) mod 1 and keeps the ring its last 55 values |
| `RandStream.FillRing` | src/mathlib/randsse.cpp:28-35 | the nested loops store four seeds a slot, all on the grid |
| `RandStream.SeedLanes` | src/mathlib/randsse.cpp:30-34 | four steps of the 32-bit seed recurrence |
| `ScriptFunctionSearch.SkipWhitespace` | src/engine/mcp_script_function_search.cpp:48-52 | stops at the first character that is no white space |
| `ScriptFunctionSearch.CharacterClasses` | src/engine/mcp_script_function_search.cpp:38-52 | the characters that are space, begin a name and go on with it |
| `ScriptFunctionSearch.FindKeyword` | src/engine/mcp_script_function_search.cpp:61 | the first occurrence of the keyword from a position |
| `ScriptFunctionSearch.ScanName` | src/engine/mcp_script_function_search.cpp:78-93 | the name loop stops where the specified name ends |
| `ScriptFunctionSearch.NameEndIff` | src/engine/mcp_script_function_search.cpp:78-93 | that end is the one place where the text so far is a name and does not go on |
| `ScriptFunctionSearch.ScanArguments` | src/engine/mcp_script_function_search.cpp:102-127 | stops behind the parenthesis that closes the list outside quotes, or at the end of a text that never closes it |
| `ScriptFunctionSearch.QuotedStays` | src/engine/mcp_script_function_search.cpp:102-127 | a quoted string goes on past every quote after an odd number of backslashes, and nothing in it counts |
| `ScriptFunctionSearch.QuotedEnds` | src/engine/mcp_script_function_search.cpp:102-127 | it ends at the first after an even number |
| `ScriptFunctionSearch.UnquotedCounts` | src/engine/mcp_script_function_search.cpp:102-127 | outside quotes the depth is that of the parentheses, and either quote begins a string |
| `ScriptFunctionSearch.ArgumentsUnique` | src/engine/mcp_script_function_search.cpp:102-129 | an argument list closes at one place only |
| `ScriptFunctionSearch.HeaderUnique` | src/engine/mcp_script_function_search.cpp:63-140 | a keyword begins at most one header |
| `ScriptFunctionSearch.WrittenIsHeader` | src/engine/mcp_script_function_search.cpp:54-143 | a function written out is a header, with its places and its line, whatever stands before and after it |
| `ScriptFunctionSearch.NewlinesAdd` | src/engine/mcp_script_function_search.cpp:137-138 | the newlines before a name add up over any parts of the text |
| `ScriptFunctionSearch.NewlineIs` | src/engine/mcp_script_function_search.cpp:137 | and only the newline itself is one |
| `ScriptFunctionSearch.NoOpeningBefore` | src/engine/mcp_script_function_search.cpp:78-102 | nothing opens an argument list between a keyword and the arguments it opens |
| `ScriptFunctionSearch.ReadCandidate` | src/engine/mcp_script_function_search.cpp:63-141 | an occurrence of the keyword is told to be no header, unclosed, without a body, or a header |
| `ScriptFunctionSearch.PassUnbalanced` | src/engine/mcp_script_function_search.cpp:126-127 | giving up on an unclosed list passes over no visited header |
| `ScriptFunctionSearch.PassNoBody` | src/engine/mcp_script_function_search.cpp:129-135 | nor does going on behind a list without a body |
| `ScriptFunctionSearch.PassFound` | src/engine/mcp_script_function_search.cpp:137-141 | nor going on behind the brace of a header |
| `ScriptFunctionSearch.ForEachScriptFunction` | src/engine/mcp_script_function_search.cpp:54-143 | on every text the scan ends and reports, in order and disjoint, exactly the headers (whole-word keyword, name, balanced quote-aware list, brace, line 1 plus the newlines before the name) whose keyword lies in the argument list of no earlier visited opening |
| `Playlists.SetIsMapUpdate` | src/engine/playlists.cpp:28-45 | Set is refused exactly for a string that does not fit or a new name in a full table; otherwise it is update of a map with case-insensitive keys, and names stay distinct |
| `Playlists.NamesMatchIff` | src/engine/playlists.cpp:18-26 | names are the same if they match byte for byte, the two cases of a letter matching and nothing else |
| `Playlists.SetsSurviveTransfer` | src/engine/playlists.cpp:28-95 | tables grown by any sequence of Set calls have distinct names, fit the buffer, and decode from what they encode to unchanged |
| `Playlists.DecodeEncodeString` | src/engine/playlists.cpp:47-58 | a string read from its own encoding is itself, and the bits after it are left |
| `Playlists.EncodeDecodeString` | src/engine/playlists.cpp:47-58 | whatever string is read, its encoding is what was read |
| `Playlists.CodecRoundTrip` | src/engine/playlists.cpp:60-95 | a message decodes to the table it encodes |
| `Playlists.BitWeights` | src/engine/playlists.cpp:83-95 | bytes are written least significant bit first |
| `Playlists.OnlyEncodingsDecode` | src/engine/playlists.cpp:60-95 | and only encodings decode: every accepted message is the encoding of what is read from it |
| `Playlists.EncodedSize` | src/engine/playlists.cpp:86-94 | an entry never takes more than its 192 bytes |
| `Playlists.EncodingFitsBuffer` | src/engine/playlists.cpp:198-204 | a written table never exceeds 1 + 255 * 192 bytes |
| `Playlists.CStringsUnchanged` | src/engine/playlists.cpp:78-79 | installing a table of C strings stores it unchanged |
| `Playlists.ReceivedNamesDistinctIff` | src/engine/playlists.cpp:60-81 | the names installed from a message are distinct if and only if no two of its names are alike up to a NUL |
| `Playlists.AlikeIff` | src/engine/playlists.cpp:18-26 | two names become the same as C strings, ignoring case, exactly when they are alike up to a NUL in each or to the end of both |
| `Playlists.ReceivedNamesMayRepeat` | src/engine/playlists.cpp:60-81 | any two entries with such names make a message that is accepted |
| `Playlists.BitReader.ReadOverrideString` | src/engine/playlists.cpp:47-58 | reads a string exactly when it fits its buffer and the message, and never past the end |
| `Playlists.PlaylistVarOverrides.constructor` | src/engine/playlists.cpp:13 | an empty table |
| `Playlists.PlaylistVarOverrides.Find` | src/engine/playlists.cpp:18-26 | the first entry of that name, ignoring case |
| `Playlists.PlaylistVarOverrides.Set` | src/engine/playlists.cpp:28-45 | in place, the specified update, or false and no change |
| `Playlists.PlaylistVarOverrides.ReadEntries` | src/engine/playlists.cpp:66-74 | the loop reads the specified entries or fails where they do |
| `Playlists.PlaylistVarOverrides.Install` | src/engine/playlists.cpp:78-79 | the received entries replace the table |
| `Playlists.PlaylistVarOverrides.Read` | src/engine/playlists.cpp:60-81 | succeeds exactly when the reader has not overflowed, the length is legal and those bits decode; then the table is what they hold, otherwise it is unchanged |
| `Playlists.BitWriter.WriteEntry` | src/engine/playlists.cpp:88-93 | appends the encoding of an entry to a buffer with room for it |
| `Playlists.PlaylistVarOverrides.Write` | src/engine/playlists.cpp:83-95 | appends the encoding of the table to a buffer with room for it |
| `Playlists.SendOverrides` | src/engine/playlists.cpp:198-218 | what a server writes to its static buffer leaves a client with the same table, whatever it had |
| `BatchSplit.IntendedOrderIsNative` | src/materialsystem/nscustomdxbuffer.cpp:116-118 | the intended draws are those of the native call in its order, viewports apart |
| `BatchSplit.BackgroundIff` | src/materialsystem/nscustomdxbuffer.cpp:64-73 | a batch is background exactly for a material with a $skybackground other than zero |
| `BatchSplit.UnmarkedIsNative` | src/materialsystem/nscustomdxbuffer.cpp:110-114 | without a background material they are exactly the native call |
| `BatchSplit.RunsAreMaximal` | src/materialsystem/nscustomdxbuffer.cpp:124-140 | no call mixes classes and neighbouring calls of a chunk differ in class |
| `BatchSplit.SplitDrawsAsIntended` | src/materialsystem/nscustomdxbuffer.cpp:119-144 | the split draws every (chunk, material) pair of the native call once, in order, background ones and only those under far depth |
| `BatchSplit.HookDrawsAsIntended` | src/materialsystem/nscustomdxbuffer.cpp:106-144 | the hook as a whole does, whichever way it goes |
| `BatchSplit.ScopedBackgroundDepth.constructor` | src/materialsystem/nscustomdxbuffer.cpp:82-89 | saves the viewports and sets both depths of each to 1, leaving the rest of them alone |
| `BatchSplit.ScopedBackgroundDepth.Restore` | src/materialsystem/nscustomdxbuffer.cpp:91-94 | the viewports are as they were saved |
| `BatchSplit.FindRunEnd` | src/materialsystem/nscustomdxbuffer.cpp:126-129 | the end of the maximal run |
| `BatchSplit.DrawRun` | src/materialsystem/nscustomdxbuffer.cpp:130-139 | one native call, under far depth exactly for background, viewports restored |
| `BatchSplit.DrawChunk` | src/materialsystem/nscustomdxbuffer.cpp:124-141 | one call per maximal run of the chunk, viewports restored |
| `BatchSplit.DrawSplit` | src/materialsystem/nscustomdxbuffer.cpp:119-144 | the calls of every chunk of at most 256 instances, in order; the result is that of the last call |
| `BatchSplit.DrawModelInstancesInternal` | src/materialsystem/nscustomdxbuffer.cpp:102-145 | passes unmarked, empty and contextless submissions through and splits the others; viewports are restored and the result is that of the last native call |
| `LowLatency.DisabledFlushIsSilent` | src/engine/lowlatency.cpp:131-139 | with markers disabled a flush empties the queue and sets no marker |
| `LowLatency.StepKeepsInv` | src/engine/lowlatency.cpp:131-278 | every hook keeps the order of markers and the state that guards it |
| `LowLatency.EveryEdge` | src/engine/lowlatency.cpp:71-287 | exactly what each switch changes with: frames begin and end, are queued once each, markers are set from the first frame queued with Present hooked to the next device or the shutdown, statistics run from a successful start to the shutdown, and each input waits for one marker |
| `LowLatency.EveryRunIsOrdered` | src/engine/lowlatency.cpp:131-278 | over every interleaving, nested presents included: every marker but those of input is set once a frame, and all but the ends of presents with strictly increasing ids; END follows START, submission follows simulation start, submit end, present start and present end follow in turn; input markers come inside their frame; no frame is queued twice |
| `LowLatency.RunForgets` | src/engine/lowlatency.cpp:80-98 | frames nothing is under way for get no further render markers |
| `LowLatency.FlushedFramesStayFlushed` | src/engine/lowlatency.cpp:80-98 | after a shutdown or a change of device no earlier frame is submitted or presented any more |
| `LowLatency.FrameBegins` | src/engine/lowlatency.cpp:197-218 | an undisturbed frame starts, is queued once and has present markers enabled |
| `LowLatency.FrameSubmits` | src/engine/lowlatency.cpp:131-151 | is then submitted and presented, |
| `LowLatency.FramePresents` | src/engine/lowlatency.cpp:152-195 | and its present and simulation end, with every marker in order |
| `LowLatency.Globals.constructor` | src/engine/lowlatency.cpp:28-37 | nothing started, queued or enabled |
| `LowLatency.Globals.BeginRenderFrame` | src/engine/lowlatency.cpp:131-139 | sets the render frame and its marker only while markers are enabled |
| `LowLatency.Globals.FlushRenderCommands` | src/engine/lowlatency.cpp:86 | runs every queued callback in order |
| `LowLatency.Globals.RunFrame` | src/engine/lowlatency.cpp:71-98 | a change of device disables markers, flushes and forgets the render frame |
| `LowLatency.Globals.PumpBegin` | src/engine/lowlatency.cpp:197-206 | begins a frame with a new id unless one is under way |
| `LowLatency.Globals.PumpEnd` | src/engine/lowlatency.cpp:210-217 | sets the pending input markers of the frame under way and clears them |
| `LowLatency.Globals.Frame` | src/engine/lowlatency.cpp:185-195 | ends the frame under way |
| `LowLatency.Globals.InstallPresentHook` | src/engine/lowlatency.cpp:157-183 | enables markers exactly when the hook is installed |
| `LowLatency.Globals.BeginFrame` | src/engine/lowlatency.cpp:266-278 | queues the frame under way once |
| `LowLatency.Globals.PresentCall` | src/engine/lowlatency.cpp:141-151 | a real present of our swap chain takes the pending render frame and sets its two markers |
| `LowLatency.Globals.PresentReturn` | src/engine/lowlatency.cpp:152-154 | sets the end marker of the frame it took, whichever present under way returns |
| `LowLatency.Globals.MarkInputEvent` | src/engine/lowlatency.cpp:41-45 | remembers an input event while statistics are available |
| `LowLatency.Globals.WindowProc` | src/engine/lowlatency.cpp:280-287 | remembers a ping while statistics are available |
| `LowLatency.Globals.MaterialSystemInit` | src/engine/lowlatency.cpp:220-239 | the two switches and the availability of statistics |
| `LowLatency.Globals.MaterialSystemShutdown` | src/engine/lowlatency.cpp:241-264 | disables markers, drops the frame under way, flushes and releases the device |
| `McpServer.CaptureIsInside` | src/engine/mcp_server.cpp:329-365 | for every log a session holds exactly the lines whose last marker is a start marker, or the first 500 of them and one notice |
| `McpServer.MarkersIff` | src/engine/mcp_server.cpp:334-346 | a marker is seen wherever it stands in a line, and a line with both is a start |
| `McpServer.SessionIsCaptured` | src/engine/mcp_server.cpp:311-373 | with one pair of markers it holds the lines between them (or 500 and the notice) and is complete; before the end marker it is complete exactly when truncated |
| `McpServer.ConsoleOutputCapture.constructor` | src/engine/mcp_server.h:96-99 | idle, with no lines |
| `McpServer.ConsoleOutputCapture.Start` | src/engine/mcp_server.cpp:311-318 | a new session waits for its marker and has no lines |
| `McpServer.ConsoleOutputCapture.Stop` | src/engine/mcp_server.cpp:320-327 | ends the session and keeps the lines until they are taken or a new one starts |
| `McpServer.ConsoleOutputCapture.AddLine` | src/engine/mcp_server.cpp:329-365 | one line has the effect of one step of the fold; never more than 501 lines are held |
| `McpServer.ConsoleOutputCapture.TakeLines` | src/engine/mcp_server.cpp:367-373 | hands over every line held and keeps none |
| `McpServer.CompletionIff` | src/engine/mcp_server.cpp:329-365 | for every log a session is complete if and only if its last marker is its end marker, or since its last start marker came the line that was too many |
| `McpServer.ConsoleOutputCapture.WaitForCompletion` | src/engine/mcp_server.cpp:375-380 | the wait answers yes exactly for the session asked for, when there is one and it has ended in that sense; never for the empty id |
| `McpTasks.ActionKeepsQueueOk` | src/engine/mcp_server.cpp:245-304 | every step of every thread keeps the tasks waiting in one line from the oldest to the youngest, and none of them begun |
| `McpTasks.AtMostOnce` | src/engine/mcp_server.cpp:245-304 | on every interleaving, however often Resolve is entered again, at most 64 are pending and none is begun twice |
| `McpTasks.NoTaskLost` | src/engine/mcp_server.cpp:245-304 | over every run each accepted task is called, still waits, or was given up |
| `McpTasks.HistoryOfRun` | src/engine/mcp_server.cpp:245-304 | over every run only tasks that met can begin the wrong way round, and those that met cannot both begin otherwise |
| `McpTasks.InPushOrder` | src/engine/mcp_server.cpp:245-272 | where no Resolve overtakes another, functions run in the order they were pushed |
| `McpTasks.PushOrderIff` | src/engine/mcp_server.cpp:245-304 | of every run, with any cancellations and wherever it ends: functions are called in the order their tasks were pushed if and only if of no two that met in a Resolve, the older further out and the younger in the queue, both are called |
| `McpTasks.NeverOvertakesIff` | src/engine/mcp_server.cpp:245-272 | of a run without cancellations that ends outside Resolve: they are if and only if none met |
| `McpTasks.SomeTaskOvertakes` | src/engine/mcp_server.cpp:247-259 | a run in which the third task runs before the second |
| `McpTasks.CancelledNeverRuns` | src/engine/mcp_server.cpp:255-256 | one cancelled before it was checked never runs, whatever follows |
| `McpTasks.GivenUpNeverRuns` | src/engine/mcp_server.cpp:295-302 | so giving up on a task that was not called yet keeps it from ever running |
| `McpTasks.EngineTaskQueue.PushTask` | src/engine/mcp_server.cpp:280-287 | appends, or is refused at 64 pending |
| `McpTasks.EngineTaskQueue.CancelTask` | src/engine/mcp_server.cpp:293-302 | marks as cancelled |
| `McpTasks.EngineTaskQueue.SwapTasks` | src/engine/mcp_server.cpp:247-251 | takes every pending entry at once, from outside or from within a function |
| `McpTasks.EngineTaskQueue.CheckTask` | src/engine/mcp_server.cpp:253-259 | skips the next entry exactly when it is cancelled, and otherwise calls it |
| `McpTasks.EngineTaskQueue.FinishTask` | src/engine/mcp_server.cpp:257-270 | the function has returned or thrown |
| `McpTasks.EngineTaskQueue.CheckAndCall` | src/engine/mcp_server.cpp:253-271 | one entry: skipped if cancelled, else its function is called with whatever it does, entering Resolve again included |
| `McpTasks.EngineTaskQueue.Resolve` | src/engine/mcp_server.cpp:245-272 | wherever it is entered, whatever other threads push and cancel meanwhile and whatever its functions do, it is the steps of a run, one check an entry, and leaves the outer ones as they were |
| `McpTasks.ResolveAlone` | src/engine/mcp_server.cpp:245-272 | undisturbed, those steps begin exactly the pending entries that are not cancelled, in order, and leave none |
| `DebugOverlay.LiveAndDead` | src/engine/debugoverlay.cpp:220-265 | every node is kept or destroyed, by whether it is dead, and none is in either list twice |
| `DebugOverlay.LiveConcat` | src/engine/debugoverlay.cpp:220-265 | what is kept keeps its order |
| `DebugOverlay.DueIff` | src/engine/debugoverlay.cpp:240-255 | an overlay is due in its render tick, or, having none, always or in its overlay tick modulo 2^32 |
| `DebugOverlay.DrawnIff` | src/engine/debugoverlay.cpp:238-260 | what is drawn keeps the order of the list and is exactly what is alive, due and rendered, of which only smart ammo where overlays are not enabled |
| `DebugOverlay.OverlayList.RemoveDead` | src/engine/debugoverlay.cpp:222-236 | unlinking keeps the nodes before and after linked, destroys the node once and reads nothing of it afterwards |
| `DebugOverlay.OverlayList.Visit` | src/engine/debugoverlay.cpp:220-263 | one turn keeps the list linked around what is kept, destroys its overlay if and only if it is dead, and draws it if and only if it is to be drawn |
| `DebugOverlay.OverlayList.DrawAllOverlays` | src/engine/debugoverlay.cpp:207-265 | the list becomes its live nodes in order, linked and without a cycle; every dead node is destroyed once and no other; exactly what is due is drawn, in order; no node is read after its destruction |

## Left out

- The EOS SDK, sockets, thread creation, condition variables and logging: their answers are parameters or events; blocks under one lock are atomic steps.
- `EOS_ShutdownNetworking` writes three atomics without the SDK lock; callbacks that interleave between those writes are not modelled.
- `EOS_P2P_MAX_PACKET_SIZE` is not part of this model: the payload of one frame is any constant for which the fragment count fits 16 bits.
- EosTransport.Packets.ReceivePacket: the engine's buffer is long enough for the packet, as the source takes it to be; the address type is not modelled.
- EosSend.SendPacket: whether the destination is a fake address and whether a product user belongs to it are parameters.
- EosAuth.EosState.LoginCompleted: each SDK request is assumed to end in at most one terminal completion; the console variable that shows the endpoint is not modelled.
- NetChan.Channel.ReadSubChannelData: bits are already decoded into fragments; a read past the end of the packet is not modelled, and the fragment counter is unbounded.
- The decompressor, the allocator and `ProcessMessages` of the channel are parameters; a transfer they refuse ends the window.
- NetChanStream.InOrderExactlyOnce: within one session; packets of an old session that arrive after a new nonce are not told apart by the source and are not modelled.
- SHA1::from_file: file reading around the modelled `update` and `final`.
- `Transforms.TransformToWorldSpace`, `RoundTrip` and the quaternion lemmas: over the reals, without the rounding of floats; interpolation, matrices and angles are not modelled.
- InsideOut.InsideOut: its loop is verified for totals up to 2^30; beyond, LoopEndsIff says that it does not end.
- ClipPoly.ClipPolyToPlane: over the reals; the SIMD variant is not modelled. With no vertices the source copies one slot of a zero-length buffer onto itself, which has no counterpart here.
- ClipPoly.ClippedInFront: for a tolerance that is not negative; with a negative one a vertex between the two bounds counts as in front.
- Playlists.BitReader.ReadOverrideString: the bit buffer is a sequence of bits, its word-at-a-time reads are not modelled.
- Playlists.PlaylistVarOverrides.Set: names and values are C strings; case folding is ASCII.
- BatchSplit.DrawModelInstancesInternal: the native function is taken to draw 256 instances at a time and then every batch, as the source's comment says; the instance stride and material lookup are abstracted to elements and a parameter value.
- LowLatency.EveryRunIsOrdered: frame ids are unbounded; the render queue runs callbacks in order.
- The vendor SDK calls, frame limits and console variables of the latency hooks.
- McpTasks.EngineTaskQueue.Resolve: the value handed back through the future is not modelled; a call from the main thread runs its function directly.
- McpServer.ConsoleOutputCapture.WaitForCompletion: when the wait ends is not modelled, only what it answers.
- DebugOverlay.OverlayList.DrawAllOverlays: what IsDead answers for a node does not change during the walk; drawing itself and the navmesh polygons are not modelled.
- Hooks, patches, module offsets, launchers, the proxy DLL, Direct3D resources, Squirrel bindings and console variables: foreign calls.
- The master server client, CRC-32 (its table is not part of this model), transcendental maths, profile and file name parsing: plumbing, rounding behaviour, or easy members.
