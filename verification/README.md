# S-Mouse: a verified model

S-Mouse shares one keyboard and mouse among machines. A server captures input and forwards it to at most
one client at a time: keys, buttons, screen transitions and clipboards over TCP, pointer motion over UDP.
This project models the wire protocol, the TCP framing, the switching protocol between server and clients,
the screen layout, and LAN discovery, and proves what they promise, from single bytes up to whole runs.

Check everything with `dafny verify dfyconfig.toml` (Dafny 4.11).

## How the model is laid out

| file | what it holds |
|---|---|
| Octets.dfy | fixed-width integers, casts, big-endian helpers |
| Protocol.dfy, ProtocolLaws.dfy | the codec: in-place serializers against byte-level specifications; its laws |
| Framing.dfy, TcpConnection.dfy, SendLock.dfy | cutting a stream into messages; partial reads and writes; concurrent senders |
| ScreenLayout.dfy, ScreenLayoutLaws.dfy | edge detection and the client list |
| Discovery.dfy | the broadcast packet and the table of servers |
| Server.dfy, Client.dfy | the handlers, as methods of a class proved against functions of the old state |
| Traces.dfy, ServerLaws.dfy | the grammar of a connection; what every server handler keeps |
| Session.dfy, SessionLaws.dfy | server, clients and channels as one step machine; the main results over all runs |
| Stranded.dfy | clients whose receive loop ended without reporting the loss of the connection |
| Motion.dfy | pointer motion over whole runs |
| Reconnect.dfy | which clients come back, over whole runs |
| Exchange.dfy | what a client says, as the server hears it |
| Liveness.dfy | how soon a silent client is noticed, and local input returns |
| EndToEnd.dfy | codec, framing and step machine stacked |

The program's objects are classes whose methods change their fields; each such method's contract equates
the new `View()` with a function of the old one, and the lemmas are about those functions. A run is any
sequence of steps, a step that is not enabled in the current state doing nothing; `Reachable(s)` says that
some run ends in `s`, and the main results are about every reachable state.

## Assumptions

- A handler runs as one atomic step. Input events and the escape callback share the hook thread
  (src/platform/macos/macos_input_capture.mm:355-369, src/platform/windows/win_input_capture.cpp:105-130);
  the handlers that the program leaves open to interleaving are `on_client_disconnected`, which reads
  `was_active` outside the lock (src/core/server.cpp:203-204), `on_client_connected`, which receives before
  it registers (src/core/server.cpp:137-149), and `Client::connect`, which receives before it is CONNECTED
  (src/core/client.cpp:52-78).
- Connection ids are fresh: an address is not reused while anything of its earlier connection is left.
- Clients are not trusted to follow the protocol: in the step machine the server may receive any message
  from any accepted connection at any time.
- Input events are what a capture produces: motion, scroll, buttons and keys.
- A clipboard that the step machine switches with fits its frame (at most 65530 bytes). The code does not
  check this (src/core/server.cpp:274-281), and without it the invariant fails:
  `ServerLaws.TransitionKeepsExactly` and `InputKeeps` have the bound in their exact conditions,
  `EndToEnd.WireCarriesExactly` shows that the wire carries exactly what respects it, and
  `Framing.ClipboardReadAsKey` what a client makes of a clipboard that does not.
- Only the server's own datagrams reach a client. `on_udp_message` checks no sender
  (src/core/client.cpp:185-188) and would inject a key from any KEY_DOWN datagram while ACTIVE;
  `Sessions.DatagramKeepsExactly` says that strokes are the only datagrams that matter.
- In the step machine nothing is delivered past a failed send of the server. `AgreesNowExactly` says whether
  such a client agrees with the server for good, `EndToEnd.LostFrameExactly` what one lost message does if
  the next ones arrive after all, and SendLock.dfy what can follow a failed send on the wire.
- Nothing keeps one client program from appearing as several connections; `Client::connect` has no guard.
- Runs end when the server is stopped.

## Where the code differs from what is said about it

- The protocol header allows payloads of 10 MB "for clipboard data" (src/core/protocol.h:23-24), but the
  length field has sixteen bits. `RoundTripExactly` gives the exact condition, `OversizeClipboardRejected`
  and `OversizeExample` what happens beyond it.
- The clipboard length test `len < 5 + data_len` (src/core/protocol.cpp:187) adds in 32 bits. The decoder
  here has a third outcome, `Undefined`; `UndefinedExactly` says when it occurs, and no sender whose
  clipboards fit produces it.
- `add_client` turns LEFT into RIGHT for a screen at the origin (src/core/screen_layout.cpp:18-22), against
  tests/test_screen_layout.cpp:21-33. `EdgeHonouredExactly` and `LeftAtOriginExample` follow the code.
- `send` does not look at earlier failures, so a frame can follow one that was written in part (`TornFrame`,
  `TornFrameMisread`). A failed send that wrote nothing does no harm: `WireIsWholeFramesExactly` and
  `ReceiverSeesLockOrder` hold under exactly that condition.
- A failed send clears `connected_` and leaves `running_` set (src/net/tcp_connection.cpp:173-175), so the
  receive loop can end at its guard without the disconnect callback and with bytes unread. `RecvLoop` says
  that this and a close from this side are the only ways to lose the callback, and `ReceiveAfterSend` is such
  a case. An ACTIVE client then stays so until it quits (`EndedStaysActiveExactly`), beside the next one
  (`TwoSettleActive`). `SettledActiveExactly` and `AtMostOneActiveExactly` hold for all clients.
- A macOS motion is sent as its position and then again as its delta
  (src/platform/macos/macos_input_capture.mm:306-321). `ArrivalsLand` and `MotionLandsExactly` say where that
  leaves the client's pointer, whichever of the datagrams arrive.
- `switch_to_client` while another client is active leaves the first one's screen open.
  `TransitionKeepsExactly` shows that this and an oversize clipboard are the only cases that break the
  protocol; the step machine allows manual switches from LOCAL_ACTIVE.
- An evicted client is told nothing and stays ACTIVE until it sees the connection close
  (`EvictedStaysActiveUntilClosed`). `AgreesBeforeCloseExactly` says when the two sides agree before that,
  `EveryoneAgrees` that they always do after it.

## Model

| member | source | states |
|---|---|---|
| Octets.GetPutU16 | src/core/protocol.cpp:13-31 | a 16-bit field written big-endian anywhere in a buffer reads back unchanged |
| Octets.GetPutI16 | src/core/protocol.cpp:25-35 | the same for signed fields, through two's complement |
| Octets.GetPutU32 | src/core/protocol.cpp:18-42 | the same for 32-bit fields |
| Octets.WriteU16 | src/core/protocol.cpp:13-16 | overwrites exactly two bytes of the buffer with the big-endian value |
| Octets.WriteU32 | src/core/protocol.cpp:18-23 | overwrites exactly four bytes of the buffer with the big-endian value |
| Octets.TwosComplement | src/core/protocol.cpp:25-35 | both casts to signed keep the bit pattern |
| Protocol.SerializeHeader | src/core/protocol.cpp:46-50 | the in-place writer leaves the eight header bytes, and nothing else, changed |
| Protocol.SerializePayload | src/core/protocol.cpp:67-148 | for all fourteen payloads the filled buffer is exactly the payload's encoding |
| Protocol.SerializeMessage | src/core/protocol.cpp:219-233 | the buffer is header plus payload, the length field cut to sixteen bits |
| Protocol.Sequencer.MakeMessage | src/core/protocol.cpp:254-283 | the message carries its payload's type, its encoded length cut to sixteen bits, and the counter, which wraps at 2^32 |
| Protocol.Sequencer.ResetSequence | src/core/protocol.cpp:285-287 | numbering restarts at zero |
| ProtocolLaws.HeaderRoundTrip | src/core/protocol.cpp:46-65 | a header followed by any bytes decodes to itself |
| ProtocolLaws.PayloadRoundTrip | src/core/protocol.cpp:67-217 | every payload that fits a frame decodes to itself, a Hello name cut to 255 bytes |
| ProtocolLaws.AcceptedExactly | src/core/protocol.cpp:150-217 | a payload is decoded from some bytes if and only if it is of the type asked for, its name is at most 255 bytes, and the bytes begin with its encoding, whatever follows |
| ProtocolLaws.NameCut | src/core/protocol.cpp:127-140 | the codec keeps the first 255 bytes of a Hello name and changes nothing else |
| ProtocolLaws.MotionBytes | src/core/protocol.cpp:67-148 | the bytes of one message of each motion type, type number, lengths and field order included |
| ProtocolLaws.ButtonBytes | src/core/protocol.cpp:67-148 | the same for a button |
| ProtocolLaws.KeyBytes | src/core/protocol.cpp:67-148 | the same for key presses and releases |
| ProtocolLaws.ScreenBytes | src/core/protocol.cpp:67-148 | the same for enter and leave |
| ProtocolLaws.ClipboardBytes | src/core/protocol.cpp:67-148 | the same for a clipboard |
| ProtocolLaws.HelloBytes | src/core/protocol.cpp:67-148 | the same for a greeting and its acknowledgement |
| ProtocolLaws.ConnectionBytes | src/core/protocol.cpp:67-148 | the same for disconnect, reconnect and keepalive |
| ProtocolLaws.SequenceBytes | src/core/protocol.cpp:46-50 | the sequence number ends the header, highest byte first |
| ProtocolLaws.RoundTripExactly | src/core/protocol.cpp:219-252 | with any bytes following, decode(encode(m)) is m (name cut, length recomputed) and consumes the encoded length if and only if the type matches the payload and the payload fits sixteen bits |
| ProtocolLaws.StrictPrefixRejected | src/core/protocol.cpp:235-241 | no strict prefix of an encoding is accepted |
| ProtocolLaws.UniqueParse | src/core/protocol.cpp:219-252 | two equal byte streams that begin with encodings begin with the same message and the same rest |
| ProtocolLaws.EncodingInjective | src/core/protocol.cpp:219-233 | encodings are equal exactly when the messages agree up to the name cut and the length field |
| ProtocolLaws.DecodedFits | src/core/protocol.cpp:150-217 | whatever is decoded has the type it was decoded under and re-encodes into no more bytes than it came from |
| ProtocolLaws.NormalForm | src/core/protocol.cpp:150-252 | re-encoding anything the decoder accepts is never longer, and decodes to the same type, sequence and payload |
| ProtocolLaws.OversizeClipboardRejected | src/core/protocol.cpp:183-191 | a clipboard over 65530 bytes and up to 10 MB is never decoded |
| ProtocolLaws.OversizeExample | src/core/protocol.cpp:224-225 | the smallest such clipboard is framed with length zero and rejected |
| ProtocolLaws.UndefinedExactly | src/core/protocol.cpp:183-190 | the 32-bit length test lets a read past the buffer through exactly when the declared length is within five of 2^32 |
| ProtocolLaws.UndefinedExample | src/core/protocol.cpp:183-190 | five bytes that declare the longest clipboard there can be reach that read |
| ProtocolLaws.StampEncodable | src/core/protocol.cpp:254-283 | what make_message builds can be framed, oversize clipboards excepted, and only those |
| Framing.ParseAppend | src/net/tcp_connection.cpp:127-166 | parsing a stream in two pieces, wherever it is cut, finds what parsing it whole finds |
| Framing.ParseMonotone | src/net/tcp_connection.cpp:127-166 | what is delivered after some bytes is a prefix of what is delivered after more |
| Framing.RestHasNoFrame | src/net/tcp_connection.cpp:130-153 | the bytes kept back never contain a whole frame |
| Framing.Resynchronises | src/net/tcp_connection.cpp:130-165 | on frames with arbitrary types and bodies, exactly those whose payload decodes are delivered, in order; skipped frames disturb nothing |
| Framing.RepeatedDecodePrefix | src/core/protocol.cpp:235-252 | on any stream, repeated deserialize_message delivers a prefix of what the receive loop delivers |
| Framing.RepeatedDecodeAgrees | src/core/protocol.cpp:235-252 | the two agree when every frame decodes |
| Framing.OversizeClipboardIsReparsed | src/core/protocol.cpp:219-233 | a clipboard whose length is a multiple of 2^16 is skipped as a five-byte frame, and its content is then read as messages |
| Framing.ClipboardReadAsKey | src/core/server.cpp:274-281 | a concrete 65536-byte clipboard delivers a key press that nobody sent |
| Framing.ParseSent | src/net/tcp_connection.cpp:127-166 | concatenated encodings parse to the messages sent; an incomplete tail is kept and delivers nothing |
| Framing.PrefixDelivery | src/net/tcp_connection.cpp:127-166 | after any number of bytes, exactly the messages wholly inside them have been delivered |
| TcpConnections.TcpConnection.SendRaw | src/net/tcp_connection.cpp:168-180 | however the kernel splits the writes: all bytes are written, or a strict prefix is and the connection is marked lost |
| TcpConnections.TcpConnection.Send | src/net/tcp_connection.cpp:88-92 | the same for one message's encoding |
| TcpConnections.TcpConnection.RecvExact | src/net/tcp_connection.cpp:182-191 | however the reads are split: the buffer holds the next bytes of the stream, or the stream ended, broke or was closed before it was full |
| TcpConnections.TcpConnection.RecvLoop | src/net/tcp_connection.cpp:127-166 | delivers exactly what parsing the consumed bytes finds; exactly one disconnect callback unless the loop ends at its guard, which happens only between frames and only after a close from this side or a failed send; otherwise, on an unbroken stream not closed from this side, all bytes are consumed |
| TcpConnections.TcpConnection.Interference | src/net/tcp_connection.cpp:100-180 | other threads and callbacks can only clear the two flags, `connected` alone only by a failed send |
| TcpConnections.TcpConnection.OnMessage | src/core/server.cpp:169-182 | the callback gets the message, and its own reply may fail and mark the connection as lost |
| TcpConnections.TcpConnection.ReceiveAfterSend | src/net/tcp_connection.cpp:130-180 | when a send fails before the loop looks at its guard, nothing is read, nothing delivered and nobody told |
| TcpConnections.TcpConnection.ReceiveSent | src/net/tcp_connection.cpp:127-166 | on a socket holding any prefix of what the peer sent, the loop delivers exactly the whole messages among the bytes it consumed, in order, and all of them unless stopped, closed or broken |
| SendLock.FramesNeverInterleave | src/net/tcp_connection.cpp:88-92 | in every interleaving of any number of senders the wire is whole frames and failed pieces in lock order, then a prefix of the lock holder's frame |
| SendLock.WireIsWholeFramesExactly | src/net/tcp_connection.cpp:88-180 | in every run the wire is the whole frames in lock order and the holder's prefix if and only if no send has failed part-way |
| SendLock.NoFailureUntorn | src/net/tcp_connection.cpp:168-180 | a run without failed sends tears nothing, so that both results hold in it |
| SendLock.ReceiverSeesLockOrder | src/net/tcp_connection.cpp:88-180 | under that condition the receive loop finds exactly the messages sent whole, in lock order, then the holder's exactly if its whole frame is written, and otherwise keeps the holder's part |
| SendLock.TornFrame | src/net/tcp_connection.cpp:168-180 | after a send that failed part-way the next frame follows the torn one |
| SendLock.TornFrameMisread | src/net/tcp_connection.cpp:130-165 | a concrete torn stream is read as a message nobody sent |
| ScreenLayouts.ScreenLayout.SetServerScreen | src/core/screen_layout.cpp:7-9 | replaces the server's rectangle and leaves the clients alone |
| ScreenLayouts.ScreenLayout.AddClient | src/core/screen_layout.cpp:11-25 | the id's old entry goes, the new one goes to the back, LEFT at the origin becoming RIGHT |
| ScreenLayouts.ScreenLayout.RemoveClient | src/core/screen_layout.cpp:27-32 | all entries of the id go, the others keep their order |
| ScreenLayouts.ScreenLayout.ClearClients | src/core/screen_layout.cpp:34-36 | no entries are left |
| ScreenLayouts.ScreenLayout.SetClientEdge | src/core/screen_layout.cpp:38-45 | the first entry of the id changes its edge, nothing else changes |
| ScreenLayouts.ScreenLayout.CheckEdge | src/core/screen_layout.cpp:47-86 | the loop with its four branches returns the first listed client whose edge zone, clear of the corners, holds the point |
| ScreenLayouts.ScreenLayout.GetClient | src/core/screen_layout.cpp:121-126 | the first entry of the id, or none |
| ScreenLayoutLaws.DeadZonesDisambiguate | src/core/screen_layout.cpp:47-86 | no point belongs to two edges, exactly unless the screen is at most one pixel thick and at least two dead zones long; every screen of at least 2x2, below 2^31, qualifies |
| ScreenLayoutLaws.ZoneInsideExactly | src/core/screen_layout.cpp:47-86 | a point of the screen is in the zone of an edge if and only if one more step over that edge leaves the screen and it is five pixels clear of the corners |
| ScreenLayoutLaws.ZoneExactly | src/core/screen_layout.cpp:47-86 | any point is in the zone of an edge if and only if it is clear of the corners and lies straight out from the screen's last point before that edge |
| ScreenLayoutLaws.ZoneOutward | src/core/screen_layout.cpp:47-86 | moving further outwards stays in the zone |
| ScreenLayoutLaws.FirstHitIsFirst | src/core/screen_layout.cpp:47-86 | the answer is the first listed client whose zone holds the point, and none only if no zone does |
| ScreenLayoutLaws.HitIgnoresOrder | src/core/screen_layout.cpp:47-86 | with clients on distinct edges every permutation of the list gives the same answer |
| ScreenLayoutLaws.ListRefinesMap | src/core/screen_layout.cpp:11-45 | after any history of add, remove, clear and set-edge: one entry per id, get_client is the last add as amended since, and entries stand in order of last addition |
| ScreenLayoutLaws.EdgeHonouredExactly | src/core/screen_layout.cpp:15-24 | the edge asked for is the edge stored if and only if it is not LEFT for a screen at the origin |
| ScreenLayoutLaws.LeftAtOriginExample | tests/test_screen_layout.cpp:21-33 | the client the test puts on the left is reached from the right |
| Discoveries.BuildPacket | src/net/discovery.cpp:80-91 | the packet fits the 256-byte buffer and holds magic, port, length and the name cut to 248 bytes |
| Discoveries.AnnouncementRoundTrip | src/net/discovery.cpp:80-135 | a listener reads back the port and the cut name, whatever follows |
| Discoveries.AnnouncesExactly | src/net/discovery.cpp:105-135 | a datagram announces something if and only if it begins with a whole packet, and then exactly what that packet says |
| Discoveries.PacketBytes | src/net/discovery.cpp:80-91 | the bytes of one packet |
| Discoveries.Discovery.Listen | src/net/discovery.cpp:105-147 | a datagram that is short, foreign or truncated changes nothing; any other updates the table with what it announces |
| Discoveries.Discovery.Note | src/net/discovery.cpp:137-147 | a known host's entry is replaced where it stands, a new one goes to the end |
| Discoveries.TableIsFirstSeenLastHeard | src/net/discovery.cpp:105-150 | after any datagrams: one entry per host that sent a valid packet, in first-seen order, each with its last valid announcement |
| Clients.Client.Connect | src/core/client.cpp:18-92 | a successful connect ends CONNECTED, having tried to send the greeting; one that gets no TCP connection changes nothing, one that gets no UDP socket closes the connection |
| Clients.Client.Disconnect | src/core/client.cpp:94-111 | says goodbye if connected, ends DISCONNECTED, and no reconnect will follow |
| Clients.Client.HandleServerMessage | src/core/client.cpp:113-167 | the reaction to each message type |
| Clients.Client.HandleServerDisconnected | src/core/client.cpp:169-183 | RECONNECTING if reconnecting is wanted, else DISCONNECTED |
| Clients.Client.HandleUdpMessage | src/core/client.cpp:185-188 | injects only while ACTIVE |
| Clients.Client.InjectEvent | src/core/client.cpp:190-227 | one platform call per input event, none for other messages |
| Clients.ButtonsAndKeys | src/core/client.cpp:203-222 | a button is down for every value but zero; codes and modifiers pass through |
| Clients.Client.ServerGone | src/core/client.cpp:169-282 | when the server goes, a running auto-reconnecting client ends CONNECTED over a fresh greeting at its first attempt that is not fruitless, unless that one is stopped or switched off; any other client ends DISCONNECTED and attempts nothing |
| Clients.RepeatedExactly | src/platform/macos/macos_input_capture.mm:306-377 | what the tap sends for an event makes one call repeating it if and only if the event is neither a motion with a delta nor the escape key consumed while suppressing |
| Clients.ArrivalsLand | src/core/client.cpp:185-227 | whichever datagrams of a motion arrive, in any order and number: an ACTIVE client's pointer ends at the position if that arrived, and then on by the cut delta once for each delta that came later; any other client ignores them |
| Clients.MotionInOrder | src/platform/macos/macos_input_capture.mm:306-321 | when both messages of a motion arrive as sent, the pointer overshoots by the cut delta |
| Clients.MotionLandsExactly | src/platform/macos/macos_input_inject.mm:9-26 | once the position has arrived, the pointer ends where the server's was if and only if no delta came after it or the cut delta is zero |
| Clients.Client.KeepaliveTick | src/core/client.cpp:284-291 | one Keepalive while connected; if it cannot be sent the connection is marked lost and the state stays |
| Clients.Client.ReconnectLoop | src/core/client.cpp:229-282 | whatever the attempts meet, the sleeps follow the closed-form schedule and the loop ends only when stopped or connected |
| Clients.BackoffDoubles | src/core/client.cpp:279-280 | the loop's doubling with a cap computes min(1000 * 2^k, 30000), which never decreases |
| Clients.TotalSleep | src/core/client.cpp:229-282 | total sleep through n attempts: 1000 * (2^n - 1) up to five, then 31000 + 30000 * (n - 5) |
| Servers.Server.HandleConnected | src/core/server.cpp:120-152 | registers the peer with its UDP target and an empty trace |
| Servers.Server.HandleMessage | src/core/server.cpp:154-200 | refreshes the sender, and a Hello is laid out and acknowledged; unknown senders are ignored |
| Servers.Server.HandleDisconnected | src/core/server.cpp:202-238 | forgets the client and its layout entry, and takes local control if it was active |
| Servers.Server.HandleInput | src/core/server.cpp:240-255 | forwards while a client is active, else switches on an edge hit |
| Servers.Server.SwitchToClient | src/core/server.cpp:265-314 | clipboard, then enter; UDP target, suppression and state follow; unknown ids change nothing |
| Servers.Server.SwitchToLocal | src/core/server.cpp:316-339 | the active client, if registered, gets a leave; local input is restored |
| Servers.Server.SendToActiveClient | src/core/server.cpp:341-356 | motion by datagram, the rest by TCP to the active client only |
| Servers.Server.KeepalivePass | src/core/server.cpp:358-392 | the erase-while-iterating loop, in any iteration order, leaves the state described by visiting all clients at once, the destruction of erased connections abstracted away |
| Servers.VisitingOneMore | src/core/server.cpp:365-390 | one turn of that loop extends the set of visited clients by one, whichever comes next |
| Traces.GrammarMeaning | src/core/server.cpp:265-339 | in a grammatical trace a screen is open exactly after an unmatched enter, enters and leaves alternate, strokes fall inside, and a clipboard fits its frame and is directly followed by an enter |
| ServerLaws.ConnectedKeepsExactly | src/core/server.cpp:120-152 | accepting a connection keeps the server invariant unless the address is empty or that of the active client |
| ServerLaws.HostOfAddress | src/core/server.cpp:129-133 | datagrams for the peer host:port go to port 24801 of that host; an address without a colon has no host |
| ServerLaws.ConnectedMeaning | src/core/server.cpp:120-152 | a newcomer is registered as just heard, unnamed and without a screen, and nobody else is touched |
| ServerLaws.MessageMeaning | src/core/server.cpp:154-200 | a Disconnect forgets its sender, unknown senders are ignored, and of anything else but a Hello only the time is kept |
| ServerLaws.MessageKeeps | src/core/server.cpp:154-200 | any message from any client keeps the server invariant and adds no strokes to any trace |
| ServerLaws.DisconnectedKeeps | src/core/server.cpp:202-238 | losing any client, active or not, keeps the server invariant and sends nothing |
| ServerLaws.DisconnectedMeaning | src/core/server.cpp:202-238 | the lost client is in neither table, nobody else is touched, and it is not active |
| ServerLaws.TransitionKeepsExactly | src/core/server.cpp:265-314 | switching to a client keeps the server invariant if and only if the server is LOCAL_ACTIVE and the clipboard fits its frame, or the client is unknown |
| ServerLaws.TransitionSent | src/core/server.cpp:265-314 | a switch sends the clipboard if there is one, then the enter, to that client alone |
| ServerLaws.ToLocalMeaning | src/core/server.cpp:316-339 | afterwards nobody is active, nothing is suppressed, the state is LOCAL_ACTIVE, and the formerly active client has been sent exactly one leave |
| ServerLaws.ToLocalKeeps | src/core/server.cpp:316-339 | returning to local keeps the server invariant from any state |
| ServerLaws.InputKeeps | src/core/server.cpp:240-255 | an input event keeps the server invariant if and only if it does not enter a client with an oversize clipboard, and a stroke reaches the active trace and no other |
| ServerLaws.InputByKind | src/core/server.cpp:240-356 | for each kind of event: motion and scroll become one datagram, buttons and keys one message on the active trace, and while local only an absolute motion on an edge does anything |
| ServerLaws.StrokeMeaning | src/core/server.cpp:240-255 | a stroke either stays local with nothing sent, or is suppressed and appended to the active trace only |
| ServerLaws.MotionMeaning | src/core/server.cpp:341-348 | motion while suppressed is addressed to the active client's own host and enters no TCP trace |
| ServerLaws.KeepalivePassMeaning | src/core/server.cpp:364-390 | exactly the clients silent for 4000 ms or more go, each survivor gets one Keepalive and nobody else anything, and the layout keeps stale entries |
| ServerLaws.KeepaliveKeeps | src/core/server.cpp:364-390 | a whole pass keeps the server invariant, including when the active client is evicted |
| ServerLaws.EveryTurnKeeps | src/core/server.cpp:364-390 | so does every intermediate state, for every iteration order |
| ServerLaws.HelloPlacesRight | src/core/server.cpp:169-177 | a client that says Hello is laid out on the right edge with the size it announced, since its edge is never chosen before |
| ServerLaws.EnterAnnouncedScreen | src/core/server.cpp:169-193 | after a Hello the client is acknowledged, and a switch enters it at the centre of the size it announced, the clipboard right before |
| Sessions.DeliveredKeeps | src/core/client.cpp:113-167 | handling the next message of a grammatical trace keeps the client in step with it, and a stroke meets an ACTIVE client |
| Sessions.DatagramKeepsExactly | src/core/client.cpp:185-188 | a datagram of any kind disturbs a client's strokes if and only if it is a stroke and the client is ACTIVE, and does nothing unless it is ACTIVE |
| Sessions.ApplyKeepsInv | src/core/server.cpp:120-392 | every step of server, client or network keeps the system invariant |
| Sessions.RunsKeepInv | src/core/server.cpp:120-392 | every reachable state satisfies the system invariant |
| SessionLaws.InputsTravelOneWay | src/core/client.cpp:190-227 | the events a client injects are exactly strokes and motions, never both |
| SessionLaws.StrokesDelivered | src/core/client.cpp:162-166 | in every run a client's injected keys and buttons are a prefix of those captured while its connection was active, in order, and all of them once its channel is empty |
| SessionLaws.StrokeGoesOnePlace | src/core/server.cpp:240-255 | in every reachable state a stroke goes to the local desktop or to exactly one connection, never both or neither |
| SessionLaws.MotionGoesOnePlace | src/core/server.cpp:341-348 | in every reachable state forwarded motion is addressed to the active client's host |
| SessionLaws.NoStrokeWhileInactive | src/core/client.cpp:162-166 | no client meets a TCP stroke while not ACTIVE, although inject_event does not check |
| SessionLaws.EveryoneAgrees | src/core/server.cpp:265-339 | in every reachable state each connected client, once what is in flight has arrived, is ACTIVE if and only if the server has it active |
| SessionLaws.SettledActiveExactly | src/core/client.cpp:113-183 | in every reachable state a client settles ACTIVE if and only if it holds its connection and the server has it active, or it was stranded by a failed send with its screen open |
| SessionLaws.AtMostOneActiveExactly | src/core/client.cpp:113-183 | at most one client in the whole system settles ACTIVE if and only if no client is stranded with its screen open beside another such client or a connected active one |
| SessionLaws.AtMostOneActive | src/core/client.cpp:113-183 | hence, stranded clients apart, always at most one |
| SessionLaws.AgreesNowExactly | src/core/client.cpp:113-183 | at any moment, stranded or not: a client not yet told of a loss agrees with the server if and only if what it has not received leaves its screen as it is or, once it is dropped, its screen is closed |
| StrandedLaws.EndedStaysActiveExactly | src/net/tcp_connection.cpp:130-180 | an ACTIVE client whose receive loop ended at its guard settles ACTIVE in a continuation if and only if it has not quit, whatever server and network do |
| StrandedLaws.TwoSettleActive | src/core/client.cpp:284-291 | a concrete run in which such a client is evicted and two clients settle ACTIVE |
| ReconnectLaws.ReconnectsExactly | src/core/client.cpp:169-183 | in every run a client that knows its connection is gone is RECONNECTING if and only if it was opened with auto-reconnect on and has not been quit since, else DISCONNECTED |
| Exchanges.HeartbeatRefreshes | src/core/client.cpp:284-291 | what a turn of the keepalive loop sends makes the server note the time and change nothing else |
| Exchanges.HeartbeatFails | src/core/client.cpp:284-291 | an unconnected client sends none, and one that cannot be sent only marks the connection |
| Exchanges.GoodbyeForgets | src/core/client.cpp:94-111 | what a quitting client sends makes the server forget it, and take local control if it was active |
| Exchanges.QuietQuit | src/core/client.cpp:94-111 | a client without a connection quits without a word |
| Exchanges.GreetingIntroduces | src/core/client.cpp:59-75 | what a client greets with registers its name and lays out its display, or 1920x1080, on the right |
| Exchanges.ToldToGo | src/core/client.cpp:113-160 | a rejected client quits for good, one told to disconnect reconnects if it wants to |
| MotionLaws.DatagramsExactly | src/core/server.cpp:240-348 | in every reachable state the datagrams sent are exactly the motions captured while a client was active, in order, each to port 24801 of the host in that client's address |
| MotionLaws.MotionsCaptured | src/core/client.cpp:185-227 | in every reachable state each pointer call of a client is an enter it received or a motion captured while a connection from its host was active |
| SessionLaws.AgreesBeforeCloseExactly | src/core/server.cpp:202-238 | before the close is seen, a drained client agrees with the server if and only if it is registered or was dropped with its screen closed |
| SessionLaws.EvictedStaysActiveUntilClosed | src/core/server.cpp:370-384 | an evicted active client is told nothing: it is still ACTIVE after draining and stops only on seeing the close |
| SessionLaws.EscapeReturnsScreens | src/core/server.cpp:70-73 | in every reachable state, after the escape hotkey no client settles ACTIVE over its connection, and a drained one is CONNECTED if and only if it is registered or was dropped with its screen closed |
| SessionLaws.EscapeReturnsKeyboard | src/core/server.cpp:70-73 | and the next stroke is let through and sent to nobody |
| SessionLaws.ClipboardFollows | src/core/server.cpp:240-281 | a client entered through its edge with a clipboard is ACTIVE and holds exactly that clipboard once its channel is drained |
| SessionLaws.ClipboardFollowsSwitch | src/core/server.cpp:257-281 | the same for a manual switch |
| SessionLaws.EnteredAtOwnCentre | src/core/client.cpp:59-75 | the display size a client greets with comes back in the enter, which puts its pointer at that display's centre and makes it ACTIVE |
| SessionLaws.ChannelGrammar | src/core/server.cpp:265-339 | in every reachable state each trace is grammatical and its screen is open exactly while its client is active |
| SessionLaws.ServerConsistent | src/core/server.cpp:202-339 | in every reachable state: CLIENT_ACTIVE iff an active id iff suppression, the active client is registered, DISCONNECTED is never entered |
| SessionLaws.TracesGrow | src/core/server.cpp:120-392 | no step takes back what was sent |
| SessionLaws.HandshakeExactly | src/core/server.cpp:169-268 | in every run each enter comes after an accepting HelloAck on the same connection if and only if no manual switch went to a registered, ungreeted client; edges are always safe, in spite of stale layout entries |
| SessionLaws.SwitchGreetedExactly | src/core/server.cpp:257-268 | a switch respects the handshake if and only if the client is unknown or was greeted |
| SessionLaws.ManualSwitchSkipsHandshake | src/core/server.cpp:257-259 | a manual switch to a client that has not said Hello enters it ungreeted, with the default size |
| Liveness.SilentEvictedExactly | src/core/server.cpp:358-391 | a client silent since t is registered exactly as long as every tick came before t + 4000 |
| Liveness.EvictedWithinGap | src/core/server.cpp:358-391 | with ticks at most G apart it is gone from a tick on that falls in [t + 4000, t + 4000 + G) |
| Liveness.LocalControlWithinGap | src/core/server.cpp:370-384 | from that tick on no input is suppressed for the client, and if it was active then, input is local right after |
| Liveness.SteadyNeverEvicted | src/core/client.cpp:284-291 | a client sending every P ms with delay at most D is never evicted if P + D < 4000 |
| Liveness.HeartbeatsNeverEvicted | src/core/client.cpp:284-291 | the same for the messages that the client's own keepalive loop sends |
| Liveness.OthersLeaveAlone | src/core/server.cpp:154-356 | no other event touches when a client was last heard |
| EndToEnd.WireIsTheChannel | src/net/tcp_connection.cpp:88-191 | after any number of bytes the messages received are those sent up to the last whole one: the channel the step machine assumes |
| EndToEnd.GrammaticalFits | src/core/server.cpp:265-339 | everything the server sends on a grammatical trace fits the wire |
| EndToEnd.ParsedFits | src/net/tcp_connection.cpp:127-166 | nothing the loop finds in any bytes exceeds a sixteen-bit frame |
| EndToEnd.WireCarriesExactly | src/net/tcp_connection.cpp:88-191 | with all bytes in, the payloads received are those sent if and only if every clipboard fits 65530 bytes and every name 255 |
| EndToEnd.ActiveByLastTransition | src/core/client.cpp:113-183 | whatever else is received or lost, a client is ACTIVE if and only if the last transition it received is an enter |
| EndToEnd.LostFrameExactly | src/core/server.cpp:316-339 | losing one message of a connection changes the client's final state if and only if it was a screen transition and no later one follows |
| EndToEnd.KeystrokesEndToEnd | src/core/client.cpp:113-227 | from capture through bytes cut anywhere to injection: the strokes injected are a prefix of those captured for that connection, in order, and complete once all bytes are in, when the client also holds the clipboard last sent and agrees with the server who is active |

## Left out

- Sockets, name lookup, TCP_NODELAY, the accept loop: foreign I/O, represented by a socket whose calls
  answer with any positive count, an end of stream or an error.
- Threads, joins, destructors and moved connections: object lifetime. In particular what happens when a
  connection is destroyed from its own receive thread, or while the client lock is held, is not modelled.
- Interleavings inside one handler: see the assumptions.
- TCP itself: a stream may end or break at any byte, but is never reordered or corrupted.
- Sequence numbers in the step machine: nothing reads them; EndToEnd.dfy holds for all of them.
- Servers.Server.KeepalivePass: destroying the erased connection is abstracted away. In the program the erase runs under the client lock (src/core/server.cpp:374) and joins a receive thread whose callback waits for the same lock (src/core/server.cpp:209), so that the row speaks of the pass, not of the joins inside it.
- Sessions.DatagramKeepsExactly: datagrams may be lost, repeated or reordered freely; nothing is promised about their arrival.
- ScreenLayouts.ScreenLayout.CheckEdge: `right()` and `bottom()` are exact sums, while C++ leaves a 32-bit overflow undefined.
- Clients.Client.ReconnectLoop: interruptions fall in the sleep, the UDP socket's re-creation always succeeds, and the run is cut off after the listed attempts.
- `map_to_client`: the server does not call it; `ScreenRect::contains` only serves to state what the edge zones are.
- `stop()` and restart: they do not reset `state_` or `active_client_id_`.
- The choice of the primary display, logging, state callbacks and `get_clients`: display size is a parameter, the rest is for the GUI.
- TLS, Bluetooth proximity, key code tables, platform capture, injection and clipboard code, GUI and daemon.
