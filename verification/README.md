# Hiddenlink in Dafny

Hiddenlink carries IP packets between two hosts inside connections that look like ordinary HTTPS traffic, or over UDP.
This project models its protocols and proves what they are there for.

**The HTTPS tunnel.** A client opens a TLS connection and sends a disguised request: a secret, flags, a name and padding. The
server recognises the secret among the first bytes (everything else is proxied to an ordinary web server or to a Trojan
upstream), answers with a disguised response, and from then on both directions carry self-delimiting IP packets until one side
shuts its half down, the server with a fake HTTP response as a goodbye. A client replaces its connection from time to time
while the old one drains.

**The UDP link.** Peers exchange datagrams that carry one IP packet or a one-byte keep-alive. One bit of the first byte tells
the peer "I hear you". A securer encrypts datagrams, caches the peer's session and refuses old timestamps.

**The crawler.** It fetches a site's sitemap and pages as noise, from a queue fed by its own results.

How the pieces fit:

| file | what it is |
|---|---|
| `Wire`, `ByteSource` | bytes, and a socket that delivers a stream in arbitrary chunks, under a timer during a handshake |
| `PacketStream`, `PacketReader`, `Endpoints` | the packet stream as a function of its bytes; the buffered reader and the two draining loops, proved against it |
| `Writer`, `Delivery`, `Sends` | all interleavings of senders, replacement, close and shutdown on one `PacketWriter`; what the reader at the other end of a socket is promised; what becomes of every send and every shutdown |
| `Tunnel`, `TunnelSafety`, `TunnelLoop` | a rotating client, the server connections it opens, and both byte streams of each, all interleaved |
| `TunnelRest`, `TunnelLossless`, `TunnelArrival`, `TunnelSends`, `TunnelLosses` | that the system's tasks come to rest, what a connection without faults is owed, where every packet is at rest, that a packet handed to an open connection gets to the other end, and what is lost to kills, faults and attempts given up |
| `Routing`, `Handshake`, `Server` | from a connection's first byte to the tunnel or an upstream |
| `Connections` | the table of named connections and the choice among them |
| `Pacing` | when the rotation loop may connect again |
| `UdpLink`, `UdpKeepAlive`, `UdpPair`, `UdpProgress`, `UdpFreshness` | one UDP peer and its pinger; when it sends of its own accord; two peers on a bounded lossy network; that time goes on for them; two peers on an arbitrary network |
| `Securer`, `UdpTransport` | the datagram layout, the session cache, and the data path |
| `Crawler`, `CrawlerFindings` | the work queue; what documents lead to |

Code that works step by step on its own objects is modelled as classes and methods whose contracts equate the result with a
specification function; the lemmas are about that function. Code whose difficulty is concurrency (the writer, rotation, the
pinger) is a step system: a `State`, a `Step` for what runs between two points where another task can interleave, `Enabled`,
`Apply`, and runs of any length. A socket's `End` is `Fault` when the stream stops with an I/O error, which includes an error
that the writing half reports to the reader (`error_receiver`).

Facts about the code that the statements below depend on:

- The reader always collects six bytes before it looks at a length, so a goodbye shorter than that would swallow bytes that
  follow it; `PacketStream.Next` says so, and goodbyes have at least 203 bytes.
- A `send` that finds its handle already shut down returns an error and counts neither as sent nor as dropped
  (`refused` in `Writer.Stats`).
- `close(None)` and `close_matching(_, false)` empty the slot, but a sender that already has the handle goes on.
- A `send` checks nothing: a packet longer than the MTU, which a tun device with a larger MTU hands over, is written, and the
  peer's reader refuses it and everything behind it on that connection.
- A packet whose last byte is on the socket can be read by the peer before its `send` returns, and the peer can see the end
  of the stream while `socket.shutdown()` is pending, after it has failed, or after its task was killed in it
  (`Writer.EndShows`; src/transport/http/common.rs:305).

Timed results use one ideal clock in milliseconds: timers fire on time and nothing takes time by itself.

## Model

| member | source | states |
|---|---|---|
| PacketReader.PacketReader.Read | src/transport/http/common.rs:70-113 | For every chunking, every split between preread data and socket, and after any earlier calls, the packet, end or error returned is exactly the next item of the bytes not yet returned, and what is left is exactly the rest; every index stays in the MTU buffer. |
| PacketReader.PacketReader.constructor | src/transport/http/common.rs:45-68 | A new reader will read the preread data followed by the socket's bytes. |
| PacketReader.PacketReader.ReadData | src/transport/http/common.rs:115-152 | Filling the buffer neither loses nor reorders a byte; it reports a clean end only with an empty buffer, and falls short only when the whole stream does. |
| PacketReader.PacketReader.FinishGoodbye | src/transport/http/common.rs:83-98 | A goodbye ends the stream exactly when nothing follows it; the assertion after its header cannot fail. |
| PacketStream.ReadFlatten | src/transport/http/common.rs:70-113 | Round trip: the concatenation of any well-formed packets reads back as those packets, and what follows them is read as if it stood alone. |
| PacketStream.FlattenPackets | src/transport/http/common.rs:70-113 | The inverse: the packets read are, byte for byte, what the stream starts with, and the reader stops on the first bytes that are no packet. |
| PacketStream.PacketsMonotone | src/transport/http/common.rs:70-113 | More bytes never retract or alter a packet already returned. |
| PacketStream.NextTruncated | src/transport/http/common.rs:115-148 | A packet cut anywhere is never returned, not even in part, and ends the stream the way the socket ended. |
| PacketStream.NextGoodbye | src/transport/http/common.rs:83-98 | A goodbye, whole or cut anywhere, is never taken for a packet, and a whole one is a clean end. |
| PacketStream.ReaderFollowsWellFormedRun | src/transport/http/common.rs:99-112 | A malformed packet in a stream spoils only what follows it: up to the first one, the packets read and the packets sent agree. |
| PacketStream.OversizedIsRefused | src/transport/http/common.rs:107-109 | A packet that announces its own length correctly but exceeds the MTU is never returned and ends the stream with an error. |
| PacketStream.Ipv4Header | src/transport/http/common.rs:99-112 | In numbers, for every length an IPv4 header can tell (bytes 2 and 3, the more significant one first): exactly that many bytes are the packet if they are 20 to 1500 and there, too few of them are waited for, and any other length is refused. |
| PacketStream.Ipv6Header | src/transport/http/common.rs:99-112 | The same for IPv6, bytes 4 and 5 and the 40 bytes of the header. |
| PacketStream.GoodbyeHeader | src/transport/http/common.rs:83-98 | And for a goodbye of every size: a zero byte, two bytes of size, at least six bytes in all, at most 1500, and nothing after it. |
| PacketStream.FewBytes | src/transport/http/common.rs:115-148 | With fewer than six bytes left a clean end is one exactly if there are none. |
| PacketStream.GoodbyeMeans | src/transport/http/server/hiddenlink_connection.rs:77-89 | The server's goodbye is those three bytes and its payload, and ends a stream cleanly. |
| Endpoints.HandleConnection | src/transport/http/server/hiddenlink_connection.rs:49-89 | The server forwards exactly the packets of the stream, in order, or none when the connection is not for that direction, and says goodbye if and only if the stream ended cleanly. |
| Endpoints.ProcessConnection | src/transport/http/client/connection.rs:182-213 | The client forwards exactly the packets of the stream, or none, and asks for a shutdown if and only if the stream ended cleanly. |
| Writer.StepKeepsInv | src/transport/http/common.rs:169-211 | Every step of every sender, replacement, close and shutdown keeps the writer's invariant: each socket carries whole accepted packets and at most one unfinished piece, its mutex belongs to a task at work on it, the slot holds the newest handle and nobody is shutting that one down. |
| Writer.RunKeepsInv | src/transport/http/common.rs:154-311 | The same over runs of any length and interleaving. |
| Delivery.ReaderReturnsAccepted | src/transport/http/common.rs:242-265 | End to end, over every interleaving, whatever is sent on any connection, and every delivered part of one connection's stream: what the reader at the other end returns and the well-formed packets accepted before the first malformed one agree as far as both go, in the order of the socket's mutex; if all accepted on that connection are well formed it returns a prefix of them; once it can see the end of the stream, behind a goodbye or nothing, it returns them all if and only if all are well formed. |
| Delivery.HonestRunsAreReadInFull | src/transport/http/common.rs:280-310 | A connection on which senders send only well-formed packets and a shutdown writes only a goodbye, is read in full, to a clean end, as soon as its reader can see the end of the stream, whatever is sent on other connections. |
| Delivery.HandleGrows | src/transport/http/common.rs:242-311 | Over every run: bytes and accepted packets are only appended, `error_sender` is taken at most once and at most one error is reported, and a handle that is shut down and unlocked never changes again. |
| Delivery.SealedForever | src/transport/http/common.rs:256-311 | In every run, once a write has failed on a connection, or a shutdown has come to closing its socket, not one byte more is written to it, however the run goes on. |
| Delivery.UnwrapNeverPanics | src/transport/http/common.rs:256-258 | In every reachable state where a send's write can fail, `error_sender` is still there, so `take().unwrap()` does not panic. |
| Delivery.SentCountsAccepted | src/transport/http/common.rs:262-263 | Over every run the sent counter is the number of sends that returned Ok, and every accepted packet is one such send's or one that is about to return. |
| Delivery.SendsAreConserved | src/transport/http/common.rs:242-265 | Over every run every send started is in progress or ended in exactly one way: sent, dropped, or refused by a handle already shut down; when each happens is `Sends.CountersHaveCauses`. |
| Delivery.CountersAreExact | src/transport/http/common.rs:242-265 | In every state reachable from the start the counters agree with each other and with the accepted packets, and when nothing is in progress the sent counter is the number of packets accepted on all connections. |
| Sends.SlotHoldsLastBrought | src/transport/http/common.rs:169-211 | After every run the slot holds the handle brought last, numbered in order, if and only if nothing since has closed it; closing any other handle does not matter. |
| Sends.CountersHaveCauses | src/transport/http/common.rs:242-265 | Over every run the dropped sends are exactly those that found the slot empty and those whose write failed, the refused ones exactly those that got the mutex of a connection no longer open, and all others have returned Ok or are in progress. |
| Sends.SendGoesThrough | src/transport/http/common.rs:242-265 | In every run, whatever other senders, replacements and closes do: a packet sent while the slot holds a handle is among that handle's accepted packets, behind those before it, and counted, when its send is over, if the handle is still open then. So only a failed write or a shutdown can keep it from being written. |
| Sends.SentAtRest | src/transport/http/common.rs:242-265 | From every reachable state whose slot holds an open connection: a packet sent now is accepted and counted once the writer's own steps, in any order and without I/O errors, have brought it to rest. |
| Sends.ShutdownGoesThrough | src/transport/http/common.rs:169-211 | In every run, every open connection that is replaced, or closed with a shutdown, has its socket shut down when that is over, and carries exactly its accepted packets and the farewell, unless an I/O error has been reported or the shutdown was killed. |
| Sends.RestIsIdle | src/transport/http/common.rs:242-311 | No deadlock in the writer: when none of its tasks can go on, it has none. |
| Tunnel.ReadKeepsPipe | src/transport/http/common.rs:115-152 | On a connection that carries well-formed packets, whatever part of its stream has been delivered, the next packet read is the next packet written. |
| Tunnel.FinishKeepsPipe | src/transport/http/common.rs:140-145 | A reader that reaches a clean end has returned every accepted packet of that connection. |
| Tunnel.ContentNeverFails | src/transport/http/common.rs:83-145 | On a connection that carries well-formed packets framing never goes wrong: of no delivered part of its stream, nor of its clean end, does the reader make a bad version, a bad size, data after a goodbye or an end inside a packet. |
| TunnelSafety.StepKeepsWriters | src/transport/http/client/connection.rs:56-119 | Every step of the composed system keeps the invariant of every writer, whatever is sent. |
| TunnelSafety.StepKeepsWay | src/transport/http/client/connection.rs:56-119 | Every step of the composed system keeps a direction of a connection faithful in which only well-formed packets are sent, whatever is sent in the other direction and on other connections; no packet of it is thrown away for its direction. |
| TunnelLoop.RotationIsSafe | src/transport/http/client/connection.rs:56-119 | In every reachable state, whatever packets are sent and whatever fails, at most two connection tasks are alive, `previous_connection` is empty whenever it is about to be overwritten, and the writer slot holds only the newest handle, whose task has neither finished nor been killed. |
| TunnelLoop.ReadersFailBySocketsOnly | src/transport/http/client/connection.rs:195-198 | In every run, a reader that was sent only well-formed packets on its connection is failed by a socket and never by what it was sent, whatever was sent in the other direction and on other connections. |
| TunnelLoop.StaleCloseKeepsNewer | src/transport/http/common.rs:188-201 | Over every stretch of every run, the slot's handle stays until its own task ends or the next connection replaces it; tasks of older connections never remove it. |
| TunnelLoop.ShutdownsAreAwaited | src/transport/http/client/connection.rs:75-119 | In every reachable state in which the loop is not bringing a connection up, the shutdown it started for the connection before is over: every shutdown in progress is a live client task's own, and there are at most two. |
| TunnelLossless.StepKeepsUnharmed | src/transport/http/client/connection.rs:215-234 | As long as a connection's own sockets hold and its task is not killed, its handles on both sides are each in the slot, being shut down once, or shut down, and its task has read to the clean end when it finishes, whatever happens to other connections. |
| TunnelLossless.RotationLosesNothing | src/transport/http/client/connection.rs:56-119 | For every run and every connection whose own sockets hold, whose task is not killed and on which only well-formed packets are sent, whatever happens to others, in both directions: what was forwarded is a prefix of what was sent; a reader that has stopped returned everything ever accepted; a finished client task has everything the server accepted before its goodbye; no handle is forgotten. |
| TunnelRest.InternalStepIsCloser | src/transport/http/client/connection.rs:182-213 | Every step that a task takes by itself lowers a well-founded measure: how far the readers are from their ends, then what is left to write, then what is left to read. |
| TunnelRest.ComesToRest | src/transport/http/client/connection.rs:56-119 | From every reachable state, whatever was sent, the tasks by themselves reach a state in which none can go on. |
| TunnelArrival.EverySentPacketArrives | src/transport/http/client/connection.rs:56-119 | Whenever a run is at rest, for every connection and each direction by itself in which only well-formed packets were sent and no socket failed the reader, whatever happened in the other one: every packet accepted towards the server has reached its tun device, even if the client's task was killed; and unless it was, every packet towards the client, as many as the server counted as sent. |
| TunnelArrival.EverythingArrivesByItself | src/transport/http/client/connection.rs:56-119 | From every state of every run the tasks need nothing but themselves to bring all packets of such a direction. |
| TunnelArrival.ReplacedConnectionsAreOver | src/transport/http/server/hiddenlink_connection.rs:77-89 | At rest every connection that was replaced, not harmed, and carried only well-formed packets in both directions has both sockets shut down, both readers at a clean end, and its task done. |
| TunnelArrival.ClientTotalArrives | src/transport/http/common.rs:242-265 | At rest, if only well-formed packets were sent towards the server and no socket failed a server's reader: over all connections together, as many packets reached the server's tun device as the client counted as sent. |
| TunnelArrival.ServerTotalsArrive | src/transport/http/common.rs:242-265 | At rest, if only well-formed packets were sent towards the client, no socket failed a client's reader and no task was killed: over all of the client's connections, as many packets reached its tun device as the servers counted as sent on them. |
| TunnelSends.ConnectionsCloseInOrder | src/transport/http/server/hiddenlink_connection.rs:49-89 | In every reachable state, whatever fails and whatever is sent: a server reads a clean end only after the client's shutdown, begins to shut its own half down only after that, and a client's task ends in good order only after the server's shutdown. |
| TunnelSends.SentPacketIsWritten | src/transport/http/client/connection.rs:56-119 | From every reachable state whose current connection is open: a packet handed to the client now, or to the server on that connection, is written and counted as sent whenever the tasks, by whatever steps of their own, have come to rest. |
| TunnelSends.SentPacketArrives | src/transport/http/client/connection.rs:56-119 | And the tasks by themselves bring it to the tun device at the other end, at its place among the packets of its connection, if it and whatever was sent that way before is well formed and no socket has failed the reader. |
| TunnelLosses.LossIsWhatWasUnread | src/transport/http/client/connection.rs:215-234 | Over every run with any faults and kills, for a connection on which the server sent only well-formed packets until the client's task ended or was killed: what the client has forwarded by then is a prefix of what the server wrote, and however the run goes on it never forwards anything else. |
| TunnelLosses.KillLosesPackets | src/transport/http/client/connection.rs:98-100 | Killing does lose packets: for every packet there is a run without faults after which the server has counted it as sent, the loop kills the task that should read it, and no continuation whatever forwards it. |
| TunnelLosses.SocketFaultLosesPackets | src/transport/http/common.rs:129-137 | So does a socket that fails the reader. |
| TunnelLosses.AbandonedAttemptLosesPackets | src/transport/http/client/connection.rs:66-68 | So does an attempt that the client gives up after the server has answered it, without any fault: for every packet there is a run after which the server has counted it as sent, and in every continuation the packet stays written where no client task reads, and what the client forwards on any connection, if only well-formed packets are sent on it, is a prefix of what that connection's own server wrote. |
| Routing.ConfiguredRulesAreUnambiguous | src/transport/http/server/router.rs:30-49 | For every secret and every list of passwords, no routing header is empty and none is a prefix of a different rule's header. |
| Routing.MatchIsUnique | src/transport/http/server/router.rs:86-98 | At most one protocol and header size can match a stream. |
| Routing.Router.Route | src/transport/http/server/router.rs:80-104 | For every chunking: a protocol is returned exactly when its header starts the stream, none exactly when no header does; buffered and unread bytes together are the original stream; without the last chunk the outcome was open, so reading stops within the longest header plus one read; the handshake's timer fires exactly when what comes before it leaves everything open. |
| Routing.Router.Check | src/transport/http/server/router.rs:86-98 | One pass finds a rule if and only if some whole header starts the buffer, and a partial match if and only if the buffer could still grow into one. |
| Routing.HexSpells | src/protocols/trojan.rs:17-19 | A text is a password's Trojan header if and only if it spells the digest: two lower-case hexadecimal digits a byte, by their ASCII codes, the more significant one first. |
| Handshake.ParseEncoded | src/transport/http/client/connection.rs:156-163 | Round trip: the server recovers every client's name and flags from its request, and the packets start right behind it. |
| Handshake.ReadRequest | src/transport/http/server/server_connection.rs:257-305 | For every chunking the request is accepted or refused, with the same error, as the parse of the bytes that are in time says, and no byte after it is lost. |
| Handshake.ParseCut | src/transport/http/server/server_connection.rs:258-281 | No part of a client's request is taken for a whole one. |
| Handshake.RequestBytes | src/transport/http/client/connection.rs:150-164 | The client's request in bytes: one bit for each direction, the name's size, the padding's size with the more significant byte first, the name, the padding, and the suffix in ASCII codes. |
| Handshake.RequestDecides | src/transport/http/server/server_connection.rs:264-305 | Whoever wrote it, a request that has come as a whole is refused for its suffix, an unknown flag or its name, in that order, and otherwise accepted for exactly what its bytes say. |
| Handshake.ValidNameMeans | src/transport/http/server/server_connection.rs:292-302 | The server accepts exactly the names of ASCII letters, digits, punctuation and spaces without a space at either end. |
| Handshake.Gather | src/transport/http/server/server_connection.rs:258-281 | Reading on for a number of bytes neither loses nor reorders any, stops with the read that suffices, and fails, as the stream or the timer stops it, exactly when too few come. |
| Handshake.ProcessHandshake | src/transport/http/server/server_connection.rs:257-327 | A connection is established exactly when the request is in time, parses, and the response is written; a refused one gets no byte of response. |
| Handshake.ClientHandshake | src/transport/http/client/connection.rs:150-180 | The client connects exactly when its name fits, its request is written and the stream starts with a response; it takes exactly the response off the stream. |
| Handshake.ResponseAccepted | src/transport/http/server/server_connection.rs:307-314 | The client accepts every response a server sends and then reads what follows it. |
| Handshake.ResponseDecides | src/transport/http/client/connection.rs:166-176 | Whoever wrote it, a response of any size is good exactly if its last eleven bytes are the suffix, it is taken off the stream exactly, and no part of it is good. |
| Handshake.ClientNamesAreValid | src/controller.rs:74-92 | Every name a client connection can introduce itself with, configured or generated, is one the server accepts. |
| Handshake.ConnectionNameMeans | src/transport/http/client/mod.rs:115-121 | A connection bears its transport's name alone, or, if it has siblings, followed by a space, '#' and its number in decimal digits. |
| Handshake.NamesCollide | src/transport/http/client/mod.rs:116-121 | Two connections bear the same name exactly when they are one and the same, or one's transport is alone and named as the other's transport numbers its connections. |
| Handshake.NamesDoCollide | src/controller.rs:84-96 | That does happen: "HTTP client" with two connections beside an unnamed transport that comes second. |
| Handshake.NumberedIsValid | src/transport/http/client/mod.rs:116-121 | Numbering a connection keeps its name acceptable. |
| Server.ProxyConnection | src/protocols/proxy.rs:124-141 | A connection proxied to completion gives the upstream exactly the client's bytes, including those already read, then a shutdown; an interrupted one gives a prefix. |
| Server.ServeTunnel | src/transport/http/server/server_connection.rs:257-327 | A routed client brings to the tun device exactly the packets behind its handshake if its direction allows, and nothing if the handshake is refused. |
| Server.Serve | src/transport/http/server/server_connection.rs:61-80 | Every connection is served by the protocol its first bytes announce, whatever the chunking, the end of the stream and failing writes; the timer drops it exactly when the bytes before it announce nothing yet or leave a request unfinished, and then no answer is written; each other outcome is returned only when the whole stream calls for it, and upstreams get exactly the client's bytes. |
| Server.ClientStreamIsUnderstood | src/transport/http/client/connection.rs:150-164 | For every secret, flags, valid name of at most 255 bytes, padding, packets and part of one more, and every timer that lets the request through: the client's stream starts with the tunnel's header, parses to that name and those flags, and brings exactly those packets, in time or not, or none if its flags exclude sending. |
| Server.ClientStreamIsLate | src/transport/http/server/server_connection.rs:61-68 | With less time than the request takes, nothing is decided: the bytes in time are an open header or an unfinished request. |
| Server.ServeClient | src/transport/http/server/server_connection.rs:165-188 | End to end: a server given that stream, in whatever chunks, tunnels it under the client's own name and flags and hands exactly its packets to the tun device, or none if its flags exclude sending, if the request is in time and the response can be written, and drops it without an answer if it is late. |
| Server.FirstBytesDecide | src/transport/http/server/server_connection.rs:155-188 | Where a connection goes, by its first bytes: to the Trojan upstream if and only if the first 56 bytes in time spell a configured digest; to the tunnel, its handshake's errors or the timer if they are the secret's header; to the web server if and only if the stream starts with neither, and has not failed or run out of time before that was clear. |
| Server.ServeTrojanClient | src/transport/http/server/server_connection.rs:190-214 | End to end for every configured password: a client whose first 56 bytes come in time and spell its digest, in whatever chunks and whatever follows, is proxied to the Trojan upstream from its first byte, and to nothing else. |
| Connections.TransportConnections.Select | src/transport/connections.rs:47-76 | None exactly when no connection is ready; otherwise a ready connection of the table. |
| Connections.TransportConnections.FlowKeepsConnection | src/transport/connections.rs:60-75 | Packets with equal addresses, of any length that holds their IP header, are given the same connection, whatever else they contain, while the table and its ready connections stay the same. |
| Connections.FlowsAreToldApart | src/transport/connections.rs:60-75 | Two packets are kept on one connection by every hash exactly when their versions and addresses agree: otherwise some hash sends them to any two of the ready connections, so every one of them is in use. |
| Connections.TransportConnections.PeerAccepts | src/transport/http/server/hiddenlink_connection.rs:66-70 | Whatever is sent on the selected connection, its other side does not discard for its direction, on client and server alike: a server takes what the client's flags call egress, a client what they call ingress. |
| Connections.TransportConnections.Add | src/transport/connections.rs:23-25 | The name now stands for this connection, every other name is untouched, and the answer tells whether the name was new. |
| Connections.TransportConnections.Remove | src/transport/connections.rs:27-33 | Only this very connection is removed; one that replaced it under its name stays. |
| Connections.LastWriterWins | src/transport/http/server/mod.rs:146-170 | For every interleaving of server tasks, a name stands for the connection last added under it unless that one has been removed: a late finish never evicts a successor. |
| Connections.TransportConnections.Connected | src/transport/http/server/mod.rs:185-195 | A server transport is connected exactly when its open connections cover both directions. |
| Pacing.HandleLoop | src/transport/http/client/connection.rs:56-119 | Every run of the loop, whatever each attempt takes and however late timers fire, yields a schedule in which each due time follows from the attempt before and each start is late by exactly its timer's lateness. |
| Pacing.AttemptsArePaced | src/transport/http/client/connection.rs:59-68 | Over any stretch of any run, attempts start at least three seconds apart each but for the lateness of a timer, and at least one second after everything the previous one did. |
| Pacing.NextIsDue | src/transport/http/client/connection.rs:112-117 | The next attempt is due exactly three seconds after this one was or one second after this one's end, whichever is later. |
| Pacing.QuickFailuresKeepStep | src/transport/http/client/connection.rs:59-117 | Attempts that end within two seconds of their due times keep step: over any stretch they are due every three seconds exactly. |
| Pacing.DueTimesAdvance | src/transport/http/client/connection.rs:112-117 | Due times never bunch up: they advance by three seconds an attempt over any stretch. |
| UdpLink.StepKeepsPeer | src/transport/udp/mod.rs:159-254 | Every step of pinger, receiver and senders keeps the link-state invariant. |
| UdpLink.NeverIdleNeverUnacknowledged | src/transport/udp/mod.rs:159-254 | In every reachable state a wanted acknowledgement has its wake-up on the way and goes out before the clock advances, the ping timer is at most 3 s after the last egress, and egress is never idle for longer. |
| UdpKeepAlive.KeepAlivesAreNeeded | src/transport/udp/mod.rs:169-187 | An awake pinger sends if and only if an acknowledgement is wanted, nothing was ever sent, or the last datagram went out at least 3 s ago; otherwise it sleeps until exactly 3 s after that one. |
| UdpKeepAlive.NothingSuperfluous | src/transport/udp/mod.rs:159-254 | Over every run: a datagram of the pinger's that does not acknowledge goes out at least 3 s after every datagram before it, but for a sender's at the very same instant; and there are no more acknowledgements than datagrams that came in first or after 10 s without any. |
| UdpLink.OwnStepLowersLoad | src/transport/udp/mod.rs:159-254 | Every step that a peer's tasks take by themselves lowers what they have left to do at one instant, a datagram sent counting twice: a wake-up is used up, and the pinger goes back to sleep. |
| UdpPair.HeardStaysFresh | src/transport/udp/mod.rs:352-356 | On a FIFO network losing at most two datagrams in a row, with less than a second of delay variation, a peer that was heard never times out, however the two peers began. |
| UdpPair.DeliveredInWindow | src/transport/udp/securer.rs:120-123 | On that network, with delays up to 20 s, the securer's timestamp window refuses nothing. |
| UdpPair.LinkComesUp | src/transport/udp/mod.rs:101-254 | The link comes up after a start, a late start or restart of one peer, or an outage: in every run on that network, whatever is sent and lost, from any state of two running peers at the time from which the network works, both are connected at every instant later than that time plus 15 s, two maximal delays, and the time either peer may take until its next datagram. |
| UdpPair.AnyPairMayBegin | src/transport/udp/mod.rs:159-254 | That time is at most 3 s for any two running peers, whatever their link state. |
| UdpPair.NewPairComesUp | src/transport/udp/mod.rs:101-254 | Two peers created at the same time are connected at every instant later than 15 s plus two maximal delays after it. |
| UdpProgress.MoveLowers | src/transport/udp/mod.rs:101-254 | Every step of either peer and every delivery lowers, lexicographically, the number of peers that have not heard the other one and what is left to do and to deliver: acknowledgements do not go back and forth. |
| UdpProgress.TimeGoesOn | src/transport/udp/mod.rs:101-254 | From every state of every run any amount of time can pass, so the times by which the link comes up are reached. |
| UdpPair.OnceConnectedAlwaysConnected | src/transport/udp/mod.rs:338-356 | Whatever state such a run began in: once both peers are connected by a datagram delivered in it, and everything in flight carries the marker, they are connected at every point of every continuation. |
| UdpPair.StaysConnected | src/transport/udp/mod.rs:190-194 | The same from any state that satisfies the invariant, together with: everything sent from then on carries the marker. |
| UdpFreshness.ConnectedMeansHeard | src/transport/udp/mod.rs:281-286 | On a network that may lose, reorder, delay and duplicate at will, but does not return a node its own datagrams: a connected node has had one of its own datagrams accepted by the other one at most 40.997 s ago. |
| UdpFreshness.GuaranteeIsTight | src/transport/udp/mod.rs:338-343 | That bound is attained by a concrete run. |
| UdpFreshness.GuaranteedUnlessReflecting | src/transport/udp/securer.rs:87-128 | The condition is exact: every run on a network keeps that promise if and only if the network does not return datagrams to their sender. |
| UdpFreshness.ReflectionConnects | src/transport/udp/mod.rs:221-244 | Two of its own datagrams, returned under the peer's address, connect a node whose peer is silent. |
| Securer.GetPut | src/transport/udp/securer.rs:66-68 | Big-endian integers of any width read back as written. |
| Securer.U32Bytes | src/transport/udp/securer.rs:67-68 | The four bytes of a 32-bit integer, the most significant one first. |
| Securer.PutHalves | src/transport/udp/securer.rs:66 | A wider integer is its more significant part followed by the rest. |
| Securer.DecryptEncrypted | src/transport/udp/securer.rs:51-128 | Round trip: a payload survives exactly when it is not empty and its timestamp is at most 20 s behind and 10 s ahead of the clock at decryption; a stale one is refused with the clock difference, an empty one as too small; a datagram is 32 bytes longer than its payload. |
| Securer.UdpConnectionSecurer.Encrypt | src/transport/udp/securer.rs:51-85 | The buffer built step by step is the datagram of the specification: decrypted, its header reads back as the session, the timestamp and the packet number, which then is one more and wraps at 32 bits; the payload is sealed under the header's last twelve bytes. |
| Securer.NoncesAreUnique | src/transport/udp/securer.rs:54-80 | Over every history of at most 2^32 encryptions of one securer, whatever is sent and when, and wherever the packet number begins: no two datagrams have the same nonce. |
| Securer.UdpConnectionSecurer.Decrypt | src/transport/udp/securer.rs:87-128 | In-place decryption with the cache answers as decryption that derives the cipher anew, and leaves the payload between header and tag. |
| Securer.UdpConnectionSecurer.Open | src/transport/udp/securer.rs:105-118 | The cached session's cipher and a newly derived one are interchangeable; a forgery leaves the cache alone. |
| Securer.CacheIsTransparent | src/transport/udp/securer.rs:100-118 | After any history of new sessions, forgeries and stale datagrams, with the cache updated as the code does it, every answer is the cache-free one. |
| Securer.CacheHoldsLastAuthentic | src/transport/udp/securer.rs:105-118 | After any history the cache holds the session of the last authentic datagram with its derived cipher: no forgery gets in, and no authentic session is missed, however stale. |
| UdpTransport.PayloadRoundTrip | src/transport/udp/mod.rs:101-157 | A payload with room for the marker arrives unchanged with the sender's ingress state exactly when it has at most 1472 bytes, or, if secured, at most 1440, comes from the peer's address and has a timestamp in the window; otherwise it is ignored. |
| UdpTransport.MarkedBytes | src/transport/udp/mod.rs:190-194 | The marker adds 16 to the first byte of an IP packet, where that bit is never set, and touches nothing else; a keep-alive is one byte, 16 or 0. |
| UdpTransport.DataPathRoundTrip | src/transport/udp/mod.rs:281-307 | Every IP packet of up to 1440 bytes secured, 1472 insecure, arrives unchanged with the sender's ingress state; keep-alives bring the state alone, and neither is taken for the other. |
| UdpTransport.UdpTransport.HandleDatagram | src/transport/udp/mod.rs:101-157 | One round of the receiver does what the datagram means: ignores it without a trace, updates the link state, or also hands exactly one packet to the tun device and counts it. |
| UdpTransport.UdpTransport.OnIngressPacket | src/transport/udp/mod.rs:221-254 | The link state after a datagram, and a stored wake-up whenever an acknowledgement becomes wanted. |
| UdpTransport.UdpTransport.SendPacket | src/transport/udp/mod.rs:281-307 | The datagram sent is the specification's for the packet marked with the current ingress state, and the egress time is recorded. |
| Crawler.Crawler.RunIteration | src/crawler/mod.rs:108-164 | Whatever the site returns, an iteration ends after at most 1000 tasks, the sitemap first; no path is crawled twice; the crawled paths are exactly those of the dedup set. |
| Crawler.Crawler.CrawlNext | src/crawler/mod.rs:111-156 | A task taken off the queue has a path under the base that was not crawled before in this iteration, so the base check passes; queue, dedup set and error count are those its response calls for. |
| Crawler.Crawler.Add | src/crawler/mod.rs:166-189 | The queue keeps undelayed tasks before delayed ones and no path twice, within the cap of 1000; a new path inside the base is queued once, at the front if undelayed and at the end if delayed, and nothing else changes the queue. |
| Crawler.Crawler.TakenPlusQueued | src/crawler/mod.rs:166-189 | Processed and queued tasks together are as many as the dedup set has members. |
| Crawler.Crawler.Process | src/crawler/mod.rs:191-222 | A task adds exactly what its response is worth for its kind of resource, in order, and exactly its errors are counted: a missing client, a failed request, a bad document, an unexpected content type, an oversized or broken download, URLs outside a sitemap or beyond the cap. |
| Crawler.Crawler.Client | src/crawler/mod.rs:224-255 | A client serves at most its capacity of delayed requests, undelayed ones never replace it, a new one is counted exactly when the old one has no room, and the gauge of active connections is exact. |
| Crawler.NothingSkipped | src/crawler/resources.rs:43-138 | Every URL under the base that a sitemap or page names is crawled or queued afterwards, unless the cap is reached. |
| CrawlerFindings.QueueOrder | src/crawler/mod.rs:166-189 | Over every list of findings: the undelayed new ones come before everything queued earlier, the last one found first; the delayed ones after it, in the order in which they were found. |
| CrawlerFindings.OnlyFindingsAreQueued | src/crawler/mod.rs:166-189 | What is on the queue afterwards was there before or has been found. |
| CrawlerFindings.PagesAreQueued | src/crawler/resources.rs:70-81 | Every page under the base that a sitemap names and that is not known yet is queued as a page with a page's delay, unless the cap is reached. |
| CrawlerFindings.SitemapsAreQueued | src/crawler/resources.rs:54-68 | Every inner sitemap is queued as a sitemap without a delay. |
| CrawlerFindings.LinksAreQueued | src/crawler/resources.rs:119-137 | Every link of a page under the base is queued as of unknown kind, without a delay if it is taken for an asset and with a page's delay otherwise. |
| CrawlerFindings.SitemapErrors | src/crawler/resources.rs:54-82 | Short of the cap, a sitemap costs exactly one error for each entry outside its own directory. |
| CrawlerFindings.FailureErrors | src/crawler/mod.rs:191-222 | A missing client, a failed request, an unparsable sitemap and an unreadable page cost one error each and change nothing else; an asset costs one where a page was expected or no type is told, and one if it is too big or breaks off. |

## Left out

- TLS, sockets, socket options, ioctl and the tun device: a socket is a byte sequence delivered in arbitrary chunks with an end, the tun device a list of packets; errors of the tun device, which the code only logs, do not occur.
- AES, AES-GCM, BLAKE3 and SHA-224: arbitrary functions with the sizes and inverses the code relies on; digests and the URL-encoded secret are given bytes.
- Randomness is an argument in the code's range; hashing is an arbitrary function of the flow's bytes.
- Clock skew and scheduling delay: the peers share one ideal clock. `UdpFreshness` takes choosing the marker and sending as one step; `UdpPair` and `UdpLink` interleave them, but within one instant.
- UNIX times beyond 32 bits of seconds, for which the code stops.
- UDP socket errors: a failed send differs only in counters, and a failed receive ends the receiver for good.
- The order in which tasks that wait for a mutex get it is arbitrary; a mutex that serves them in turn is one case of that.
- Writer, rotation and pinger are step systems on values instead of classes, because what is proved is their interleaving; updates within one step are not broken up further.
- Reading a packet and handing it to the tun device are one step of `Tunnel`. A client task killed in between, in `tunnel.send(packet).await` (src/transport/http/client/connection.rs:207), loses that packet as well: for a killed task, what the model calls forwarded may count one packet that did not reach the device.
- Attempts to connect that fail before the server's answer are not steps of `Tunnel`; `Pacing` covers their timing. One that fails afterwards leaves an orphan, whose server may send for any length of time.
- TunnelLossless.RotationLosesNothing: speaks of what was sent on the client's connections; what a server sends on one whose client gave up is lost, see `AbandonedAttemptLosesPackets`.
- TunnelArrival.EverySentPacketArrives: the same; and that the system is at rest is in terms of steps, not of time.
- The client's timeout around connecting and the handshake, which ends an attempt as a failure. A response that is cut off by the server's own timer counts as a write that failed.
- Upstream-to-client proxying, its timeouts, the PROXY protocol header and failures to connect to an upstream.
- Failure of socket options after the handshake, which the code turns into a refused connection.
- Connections.TransportConnections.Select: the iteration order of the hash map is the order of `values`; that a change of the map may reshuffle it is not modelled, and no statement relies on the order after a change.
- Connections.LastWriterWins: speaks of connections by unique ids, one per server task; names are not unique in the code (`NamesCollide`).
- HTML, XML and URL parsing: a URL is its base-relative path, if it has one, and a response is a list of URLs or nothing. The cache of resource types is part of a link's given type.
- Crawling delays are kinds, not sleeps; errors that the code only logs are not counted, as in the code.
- Crawler.Crawler.constructor: that the sitemap lies under the base, which the code unwraps at every iteration, is a precondition.
- Metrics other than the counters named above, logging, the command line, configuration files, certificates and domain selection.
