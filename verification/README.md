# Tunel: a verified model

Tunel is a reverse-tunnel and VPN hub: a server opens public ports, or virtual
rooms, on behalf of clients that reach it over one multiplexed session each.
This project models the tables, the wire formats and the loops that several
goroutines step through, and proves what they keep.

Three kinds of modules work together.

* **Wire formats and readers.** `Bytes`, `Codec` (what makes any
  self-delimiting format uniquely decodable), `Streams` (a reader that returns
  chunks of any size, a writer), `Framing`, `Packets`, `UdpTransport`,
  `Control`, and the wire part of `P2P`. Readers and writers are methods over
  buffers and streams; each is proved against a pure parser or encoder, and the
  laws are lemmas about those.
* **Tables.** `Rooms`, `Hub`, `Registry`, `UdpPeers` and `P2P` hold the classes
  whose fields the program updates. In `Rooms` and `Registry` a method's contract
  ties the new `View()` of the object to the pure function of the old one that
  the state machines step with. In `Hub`, `UdpPeers` and `P2P` a class that
  `Shows` a state of the machine in the same file shows, after a method, the
  state the machine steps to, so the theorems about runs speak of the objects.
* **Interleavings.** `RoomJoin` (with `RoomWindow` and `RoomSize`), `Hub`,
  `EndToEnd`, `Registry`, `Demux`, `HandOff`, `UdpPeers`, `UdpServe` and `P2P` are state
  machines with one step per critical section, or per unlocked access, send,
  read or close between two of them; where several are taken together the list
  at the end says so. A run is any sequence of enabled steps (`Runs`), and the
  theorems speak of every state of every run.

`Reconnect`, `KeyFile` and `Itoa` are three self-contained loops. `Witnesses` holds
runs that reach the states which theorems about runs speak of.

## What the proofs found

Where a property that one would expect is false, the project has the exact
condition under which it holds, and an input or a run that shows the failure.

* The allocator drops its lock before the peer is inserted. Two addresses ever
  drawn are the same exactly when a multiple of 254 cursor positions separates
  them (`RoomWindow.WindowExact`). `RoomWindow.WindowTight` is a run in which
  that happens to two pending grants, and their insertion breaks the room's
  indexes.
* A room's size is counted and published after the lock is dropped. It is the
  number of peers at the time of the reading that was stored last
  (`RoomSize.SizeExact`), and so it is right exactly when that reading has missed
  as many arrivals as departures (`RoomSize.SizeRightIff`). `RoomSize.SizeWrong`
  is a run that ends with two peers and a published size of one.
* The comment at `internal/server/connection.go:315` says `releaseTunnel` may be
  called several times. The table does not allow it
  (`Registry.ReleaseTwiceBreaks`, with the condition in
  `Registry.RemoveKeepsInverseIff`). This contradicts the comment alone: the one
  caller releases each granted tunnel once, and no run of the program does it.
* Tunnel ids wrap after 65536 reservations on one connection.
  `Registry.RegistryTight` is a run, on legal ports, with one reservation more,
  after which the indexes are not inverse: one port is kept, and another one
  whose listener fails to open is asked for again and again.
* Data streams are all relayed correctly when no granted tunnel is released
  before the client serves, which the shipped client sees to by keeping its
  control streams open; there are then never more reservations than ports
  (`Demux.DemultiplexesExactly`). For any other client `Demux.DemultiplexesIff`
  says exactly when a stream is relayed as asked, and `Demux.DemuxTight` is a run
  on legal ports with early releases in which one is not.
* Room subnets are disjoint exactly up to 256 rooms (`Hub.SubnetsDisjointIff`).
  `Hub.SubnetsTight` is a run with 257 in which two peers have one address.
* A peer that is released while it joins is still announced to the others
  (`RoomJoin.DepartedIsAnnounced`); `RoomJoin.ToldExactly` says what is told when.
* A failed peer-to-peer write evicts by address. It closes a healthy connection
  exactly when that one has replaced the one written to
  (`P2P.RouteFailureHitsReplacementIff`, `P2P.HitReplacementIsRecent`);
  `P2P.RouteFailureHitsReplacement` is the run.
* The reconnect backoff overflows from attempt 35 on and the loop then often
  does not wait at all (`Reconnect.BackoffIntendedIff`).
* A rejected token is tried again exactly when another tunnel's error arrives
  first and the attempts are not used up (`Reconnect.RejectionRetriedIff`), for
  example in the run of `Reconnect.RejectionRetried`.
* `itoa` writes only a sign for the least int64 (`Itoa.Itoa`).

## Model

| member | source | states |
|---|---|---|
| Codec.UniquelyDecodable | internal/protocol/framing.go:121-161 | any format whose reader undoes its writer before every tail, and fails on every cut encoding, reads a concatenation back as the list that was written |
| Codec.PrefixDecodes | internal/protocol/framing.go:121-161 | reading a concatenation cut anywhere returns exactly the values that lie wholly before the cut, never part of one |
| Codec.WhollyContainedFrontier | internal/protocol/framing.go:121-161 | "wholly before the cut" means: the encodings of the first m values fit in k bytes and those of one more do not |
| Streams.Source.ReadFull | internal/protocol/framing.go:61-67 | filling a buffer gives the next bytes of the stream, or the right error, whatever the chunks the bytes arrive in; the rest of the buffer is untouched |
| Framing.WriteTunnelID | internal/protocol/framing.go:53-58 | appends the two bytes of the id, most significant first |
| Framing.WriteHelloFrame | internal/protocol/framing.go:70-84 | refuses addresses over 255 bytes and writes nothing then; otherwise appends exactly the encoded frame |
| Framing.WriteDatagramFrame | internal/protocol/framing.go:103-119 | refuses payloads over 65535 bytes and writes nothing then; otherwise appends exactly the encoded frame |
| Framing.ReadTunnelID | internal/protocol/framing.go:61-67 | agrees with the pure parser on every stream, value, rest and error |
| Framing.ReadHelloFrame | internal/protocol/framing.go:87-100 | agrees with the pure parser on every stream, value, rest and error |
| Framing.ReadFrame | internal/protocol/framing.go:124-161 | agrees with the pure parser on every stream and for every size of the caller's buffer |
| Framing.FrameLayout | internal/protocol/framing.go:70-119 | the three frames byte by byte: type 0, 1 or 2, the length in one byte or in two with the high one first, the payload |
| Framing.ParseFrameEncoded | internal/protocol/framing.go:70-161 | a frame that fits is read back as written, and what follows it is left over |
| Framing.ParseFrameCut | internal/protocol/framing.go:124-161 | a frame cut anywhere is an error, never a shorter frame |
| Framing.FramesUniquelyDecodable | internal/protocol/framing.go:70-161 | any list of HELLO, DATAGRAM and GOODBYE frames is read back as written; cut at any byte, exactly the whole frames before the cut come back, and then an error |
| Framing.TunnelIDRoundTrip | internal/protocol/framing.go:53-67 | an id is read back, and what follows is left over |
| Framing.HelloRoundTrip | internal/protocol/framing.go:70-100 | an address of at most 255 bytes is read back, and what follows is left over |
| Packets.WritePacket | internal/protocol/vpn.go:60-74 | refuses packets over 65535 bytes; otherwise appends exactly the length-prefixed packet |
| Packets.ReadPacket | internal/protocol/vpn.go:79-95 | agrees with the pure parser on every stream and for every buffer size |
| Packets.PacketLayout | internal/protocol/vpn.go:60-74 | a packet byte by byte: at most 65535 bytes, two bytes of length with the high one first |
| Packets.PacketsUniquelyDecodable | internal/protocol/vpn.go:60-95 | any list of packets is read back as written; cut at any byte, exactly the whole packets before the cut come back |
| UdpTransport.SendPayloads | internal/server/udp.go:67-73 | one datagram frame per payload, in order |
| UdpTransport.ServePeer | internal/server/udp.go:43-73 | the server's stream for one public peer is tunnel id, HELLO and the frames of all its datagrams; an address over 255 bytes leaves the id alone |
| UdpTransport.PumpFrames | internal/server/udp.go:79-103 | the frame loop passes on exactly what the pure reading of the stream gives, up to the first error or GOODBYE |
| UdpTransport.PassesUntilGoodbye | internal/server/udp.go:84-102 | a frame loop passes on exactly the non-empty datagrams before the first GOODBYE, in order, whatever HELLOs are among them and whatever bytes follow |
| UdpTransport.HandleUdpStream | internal/client/client.go:423-500 | the client's view of a data stream (tunnel, peer, datagrams delivered) is a function of the stream's bytes |
| UdpTransport.SameForEveryChunking | internal/client/client.go:463-500 | two streams with the same bytes in different chunks give the same view |
| UdpTransport.DeliversInOrder | internal/server/udp.go:27-75 | with any k bytes of the frames arrived, the client knows the right tunnel and peer and has delivered exactly the non-empty ones among the datagrams that arrived whole, in order |
| UdpTransport.DeliversExactly | internal/server/udp.go:27-75 | in the end exactly the non-empty datagrams are delivered, in order, byte for byte, with a HELLO naming the peer |
| UdpTransport.ReturnsExactly | internal/client/client.go:502-512 | the way back passes on exactly the non-empty responses, in order |
| UdpTransport.PassedPrefix | internal/server/udp.go:84-102 | the same for the frame loop alone, with any k bytes arrived |
| Rooms.EveryOctetOnce | internal/server/room.go:70-78 | 254 successive cursor positions are the octets 1..254, each exactly once |
| Rooms.CursorReturns | internal/server/room.go:70-75 | a full turn brings the cursor back |
| Rooms.OctetsDiffer | internal/server/room.go:70-75 | positions fewer than 254 advances apart are different octets |
| Rooms.AllocationExact | internal/server/room.go:66-88 | allocation fails exactly when all 254 addresses are taken; otherwise it returns the first free octet in cyclic order, leaves the cursor just behind it, and the cursor stays in 1..254 |
| Rooms.Room.Allocate | internal/server/room.go:66-88 | the scanning loop computes that allocation and that cursor |
| Rooms.AllocateKeepsInv | internal/server/room.go:66-88 | the address drawn is free, has a last octet in 1..254 and otherwise the room's base, and the indexes are untouched |
| Rooms.InsertKeepsInvIff | internal/server/room.go:96-101 | inserting a peer keeps the two indexes inverse exactly when its address and connection are both free, or both those of one peer |
| Rooms.Room.InsertPeer | internal/server/room.go:97-100 | both indexes gain exactly this peer, and the room is in order afterwards exactly when that condition holds |
| Rooms.Room.GrantPeer | internal/server/room.go:91-103 | a grant nothing interrupts: none exactly when the room is full, otherwise the peer has the address allocated, is inserted and counted; the room stays in order exactly when the connection had no live peer |
| Rooms.ReleaseKeepsInv | internal/server/room.go:118-131 | after a release the connection is gone and every other peer is where it was |
| Rooms.Room.ReleasePeer | internal/server/room.go:118-128 | removes the connection's peer from both indexes, counts, and returns it, or changes nothing |
| Rooms.ReleaseTwice | internal/server/room.go:118-131 | releasing twice is releasing once |
| Rooms.GrantThenRelease | internal/server/room.go:91-131 | a grant followed by a release restores the membership; only the cursor has moved |
| Rooms.Room.PeersSnapshot | internal/server/room.go:141-154 | lists every peer of the room exactly once |
| Rooms.Room.Broadcast | internal/server/room.go:157-169 | appends one copy of the packet to every other peer with a stream that works, and counts it; a failing write stops no other one, and no one else changes |
| Rooms.Room.Route | internal/server/room.go:172-189 | a peer with a stream that works gets the packet, once, exactly when bytes 16 to 19 of the packet name its address or end in 255, for an IPv4 header of at least 20 bytes, and it is not the sender |
| Rooms.ReadLoop | internal/server/vpn.go:149-167 | the packets routed are exactly the non-empty ones that the stream decodes to, in order |
| RoomWindow.WindowExact | internal/server/room.go:66-99 | in every interleaving, two addresses ever drawn are the same exactly when a multiple of 254 cursor positions separates them |
| RoomWindow.WindowDistinct | internal/server/room.go:66-99 | in every interleaving, addresses drawn fewer than 254 cursor positions apart are distinct, even when none of them has been inserted |
| RoomWindow.WindowTight | internal/server/room.go:66-99 | there is a run in which two grants 254 positions apart are pending with the same address, and after both insertions the indexes are not inverse |
| RoomWindow.CollisionBreaks | internal/server/room.go:92-100 | any run with two pending grants of one address and different connections can be continued to a room whose indexes are not inverse |
| RoomWindow.PromptRoomInvariant | internal/server/room.go:66-131 | when no grant stalls for 254 positions and no connection has two live grants, the two indexes stay inverse and inside the subnet in every interleaving of draw, insert, release and size publication, and no insertion replaces a peer |
| RoomSize.SizeExact | internal/server/room.go:97-101 | in every interleaving, with the read and the store of the count as steps of their own, the published size is the number of peers after as many changes of the room as the reading stored last has seen |
| RoomSize.SizeRightIff | internal/server/room.go:97-101 | in every prompt run the size is wrong by exactly the arrivals less the departures that the reading stored last has missed, and right exactly when they are as many |
| RoomSize.SerialRoomInvariant | internal/server/room.go:91-131 | when grants and releases do not overlap, the whole invariant, size included, holds whenever none is under way |
| RoomSize.SizeWrong | internal/server/room.go:97-101 | a run of two overlapping grants after which nothing is under way, two peers are in the room, and the size is one |
| RoomJoin.MutualDiscovery | internal/server/connection.go:204-238 | in every interleaving of grant, set ctrl, snapshot, send members and notify, two peers that have both finished joining and are still there have each been told of the other |
| RoomWitness.BothJoin | internal/server/connection.go:204-238 | a run in which two peers join, stay, and know of each other |
| RoomJoin.DiscoveryAlways | internal/server/vpn.go:170-200 | the inductive reason: whoever has finished with another has told it or been told, and nobody is told of a peer that was never granted |
| RoomJoin.ToldExactly | internal/server/vpn.go:170-200 | in every run a member list tells its receiver of exactly the peers present when it was taken, a notification goes to a peer present when it began, if that peer's control stream is set by then, and nothing else tells anyone anything |
| RoomJoin.DepartedIsAnnounced | internal/server/vpn.go:182-200 | a peer released between its member list and its notification is still announced |
| Hub.HubInvariant | internal/server/vpn.go:55-128 | over any run every room's indexes are inverse views of the same peers inside the room's subnet, rooms are numbered in order of creation, and no connection has two peers |
| Hub.MembershipExactly | internal/server/vpn.go:98-146 | in every run a peer is in its room from its grant until its connection is released, and attaching gives a new stream to the peer in a room with that connection and to nobody else |
| Hub.SubnetsDisjointIff | internal/server/vpn.go:68-95 | room subnets are pairwise disjoint exactly as long as at most 256 rooms exist |
| Hub.SubnetsExactly | internal/server/vpn.go:88-95 | in every run the k-th room created, the lobby being the 0-th, has the subnet 10.99.k.0/24, k modulo 256 |
| Hub.AddressesDistinct | internal/server/vpn.go:88-110 | with at most 256 rooms no two peers of the hub share an address |
| Hub.SubnetsTight | internal/server/vpn.go:88-95 | a run with 257 rooms in which two peers have the same address |
| Hub.RecipientsAre | internal/server/room.go:157-189 | the broadcast and the unicast branch write to exactly the peers named by the packet's bytes 16 to 19 |
| Hub.RouteReaches | internal/server/room.go:172-189 | a peer with a stream is written to exactly when it is in the sender's room and the packet is for it |
| Hub.RoomIsolation | internal/server/vpn.go:124-128 | for any number of rooms, a packet changes nothing for its sender or outside its sender's room |
| Hub.ForwardingExact | internal/server/vpn.go:149-167 | at every moment of every run a peer's packet stream decodes to exactly the packets assigned to it since the stream was attached, in order, and txPackets counts them |
| EndToEnd.StreamToStream | internal/server/vpn.go:131-167 | in every interleaving and for every chunking one log interleaves what all streams have sent: of each stream exactly its non-empty packets read so far, in order; and each listening peer's stream decodes to exactly the logged packets since its attachment that are for it, in that order |
| Hub.VpnHub.constructor | internal/server/vpn.go:55-64 | the hub starts with the lobby, in subnet 0 |
| Hub.VpnHub.AllocSubnet | internal/server/vpn.go:88-95 | gives 10.99.x.0 for the counter x and increments the byte |
| Hub.VpnHub.EnsureRoom | internal/server/vpn.go:68-86 | an existing room is given back, unless it is private and the password wrong; a new one is created empty in the next subnet, which is what the machine does before a grant |
| Hub.VpnHub.ReleasePeer | internal/server/vpn.go:113-121 | the connection is released from the first room found to have it and from no other; as long as no connection has two grants that is the machine's release everywhere |
| Registry.ReserveKeepsInverseIff | internal/server/connection.go:263-287 | a reservation keeps the two indexes inverse exactly when the next id is not in use |
| Registry.RemoveKeepsInverseIff | internal/server/connection.go:317-323 | removing a tunnel keeps them inverse exactly when whoever holds its id and its port holds both |
| Registry.ReleaseTwiceBreaks | internal/server/connection.go:315-323 | a second release, after the port was reserved again, would leave the indexes inconsistent; it contradicts the comment, not the program |
| Registry.RegistryInvariant | internal/server/connection.go:262-345 | in every interleaving of at most 65536 reservations the indexes are inverse and hold exactly the tunnels reserved and not yet removed, and nothing once closed |
| Registry.IdsExactly | internal/server/connection.go:272-275 | in every run the n-th tunnel reserved has id n modulo 65536, counted from 1 |
| Registry.RegistryTight | internal/server/connection.go:272-296 | a run with 65537 reservations of legal ports after which the indexes are not inverse |
| Registry.NoMoreThanPorts | internal/server/connection.go:163-171 | while every tunnel ever reserved is still registered, there were at most 65535 reservations, one per port |
| Registry.RemovesOnlyItsOwn | internal/server/connection.go:290-323 | a rollback or release removes its own tunnel and no other |
| Registry.ClosedForEver | internal/server/connection.go:327-340 | once the connection is closed both maps are empty for ever, however many reservations there were |
| Registry.SurvivorsAreLate | internal/server/tunnel.go:43-81 | when close-all and all releases are through, the listeners still open are exactly those whose open finished after their closePublic had run |
| Registry.LateListener | internal/server/tunnel.go:43-81 | a run that leaves such a listener open |
| Registry.LateForEver | internal/server/tunnel.go:65-73 | such a listener is closed by no later step |
| Registry.Connection.Reserve | internal/server/connection.go:263-287 | refuses a closing connection and a port in use, otherwise enters the tunnel in both maps under the next id |
| Registry.Connection.Remove | internal/server/connection.go:317-321 | deletes the tunnel's id and port and nothing else |
| Registry.Connection.CloseAll | internal/server/connection.go:327-340 | empties both maps once and returns every tunnel that was registered |
| Demux.IdsDistinct | internal/server/connection.go:272-273 | up to 65536 reservations distinct tunnels have distinct ids |
| Demux.DemultiplexesExactly | internal/client/client.go:276-306 | in every interleaving of handshakes in which no granted tunnel is released before the client serves, every stream the server opened for a tunnel, also before the last AuthOK, is relayed to the target its spec names, as udp exactly if the spec says udp, and the server granted the same; there are at most 65535 reservations |
| Demux.DemultiplexesWithinIds | internal/client/client.go:276-306 | the same for every interleaving with at most 65536 reservations, early releases included |
| Demux.DemultiplexesIff | internal/client/client.go:352-362 | in every run whatever, a stream is relayed as its spec asked for exactly when the spec of the last AuthOK read with its tunnel's id names the same target and is udp exactly if the other one is |
| Demux.DemuxTight | internal/client/client.go:352-362 | a run on legal ports with 65537 reservations, all tunnels but the first released before the client serves, in which a stream opened for the first one, still served, is relayed to the last one's target |
| Control.Encode | internal/protocol/protocol.go:211-221 | appends the line and its newline |
| Control.LineLayout | internal/protocol/protocol.go:211-221 | a frame is its body and byte 10 |
| Control.Decoder.ReadEnvelope | internal/protocol/protocol.go:187-208 | returns the first line of buffer and stream together, for every read-ahead, and loses no byte behind it |
| Control.LineStays | internal/protocol/protocol.go:187-195 | a line complete in the buffer is the same whatever arrives later |
| Control.HandOffLosslessIff | internal/protocol/protocol.go:174-195 | a second decoder returns all the frames the first has not returned exactly when the first has read nothing ahead |
| HandOff.HandOffLossless | internal/server/connection.go:127-189 | in every interleaving of the TCP/UDP handshake and pings, for every read-ahead, the first decoder's buffer is empty when the second takes over, on both sides, and together they return exactly the frames sent |
| HandOff.SentExactly | internal/server/tunnel.go:85-110 | in every run each direction carries exactly Auth and the pings, or the reply and one pong for each frame answered, and each take returns one frame |
| ControlWitness.PingAnswered | internal/client/client.go:335-408 | a run of the whole handshake with a ping and its pong |
| UdpPeers.TableConservation | internal/server/udp.go:40-115 | in every interleaving a stream ever opened is a current entry or closed once its eviction is over; entries and peers match one to one; the table holds exactly the peers not evicted, and after the teardown exactly those admitted since and not evicted, at most one; the wait group counts the running pumps |
| UdpPeers.Straggler | internal/server/udp.go:30-63 | a run in which one entry outlives the close |
| UdpPeers.EvictsOnlyItself | internal/server/udp.go:106-115 | an entry leaves the table only by its own peer's eviction or by the close |
| UdpServe.ServesEveryPeer | internal/server/udp.go:27-75 | in every interleaving of many public peers, write failures, evictions and the close, each stream holds the id, the HELLO and the frames of a first part of the datagrams received from that address since the admission, in order, and part of one more frame if a write failed; the client delivers exactly the non-empty ones; a peer in the table has been forwarded all of them whenever the loop is idle |
| UdpWitness.TwoPeersServed | internal/server/udp.go:27-75 | a run in which datagrams of two addresses are forwarded |
| UdpPeers.UdpTable.PeerFor | internal/server/udp.go:40-65 | the peer of an address, created and entered when there was none and its stream could be opened and its header written; the table then shows the machine's state after that step |
| UdpPeers.UdpTable.Evict | internal/server/udp.go:106-115 | the first eviction of a peer takes the table to the state after the machine's three eviction steps; later ones do nothing |
| UdpPeers.UdpTable.CloseAll | internal/server/tunnel.go:74-79 | the pass over the table takes it to the state after the machine's teardown |
| P2P.WriteFrame | internal/client/quic.go:296-300 | appends the frame, its length cut to two bytes |
| P2P.ReadFrame | internal/client/quic.go:284-294 | agrees with the pure parser on every stream and buffer size |
| P2P.FrameRoundTripIff | internal/client/quic.go:284-300 | a frame comes back as written exactly when it is not empty and fits the buffer |
| P2P.WriteHello | internal/client/quic.go:257-261 | appends one frame with both lengths, cut to a byte each, and both addresses |
| P2P.ReadHello | internal/client/quic.go:263-282 | agrees with the pure reading of a hello |
| P2P.HelloRoundTripIff | internal/client/quic.go:257-282 | a hello comes back as written exactly when both addresses have at most 255 bytes |
| P2P.FrameLayout | internal/client/quic.go:257-300 | frames and hellos byte by byte |
| P2P.Conservation | internal/client/quic.go:228-246 | in every interleaving each connection ever registered is the current entry for its address or closed |
| P2P.LastSeenExact | internal/client/quic.go:154-155 | in every run lastSeen is the time of the last registration of, or successful write to, that connection |
| P2P.OpenExactly | internal/client/quic.go:228-246 | in every run an open connection is closed exactly by another registration or an eviction of its address, a reap pass that finds it idle, or the stop, and never reopened |
| P2P.EntryExactly | internal/client/quic.go:228-246 | in every run a connection is the entry of an address from its registration there until another one, an eviction of the address, or a reap pass that finds it idle |
| P2P.ReapExact | internal/client/quic.go:351-371 | in every run a reap pass keeps exactly the entries registered, or written to with success, at most 90 s before, and closes exactly the other connections |
| P2P.RouteFailureHitsReplacementIff | internal/client/quic.go:142-156 | in every run with lookups as steps of their own, a failed write closes a connection other than the one written to exactly when that other one is by now the open entry for the address |
| P2P.HitReplacementIsRecent | internal/client/quic.go:142-156 | and then it was registered there between the lookup and the failure |
| P2P.RouteFailureHitsReplacement | internal/client/quic.go:142-156 | the run in which it happens |
| P2P.P2PManager.Register | internal/client/quic.go:228-236 | the old entry is closed and replaced: the state after the machine's step |
| P2P.P2PManager.Evict | internal/client/quic.go:238-246 | the entry of the address is closed and removed: the state after the machine's step |
| P2P.P2PManager.LookUp | internal/client/quic.go:142-148 | the connection found, and the machine's lookup |
| P2P.P2PManager.FinishRoute | internal/client/quic.go:149-156 | a successful write refreshes the connection written to, a failed one evicts the address: the state after the machine's step |
| P2P.P2PManager.Reap | internal/client/quic.go:361-368 | the loop over the table removes and closes exactly the idle entries: the state after the machine's step |
| P2P.P2PManager.Stop | internal/client/quic.go:91-104 | every connection of the table is closed: the state after the machine's step |
| Reconnect.Run | internal/client/client.go:199-245 | the loop's events, waits and dials are those of the specification, for every environment |
| Reconnect.TraceShape | internal/client/client.go:199-245 | every run that returns emits (Connecting Connected? Reconnecting)* (Connecting Connected?)? and one terminal event, last; one Connecting for each dial, and Connected after it exactly if all tunnels came up |
| Reconnect.DialsAgainIff | internal/client/client.go:211-243 | after any session of any run, also a failed dial and a dropped session, the loop dials again exactly when it was not cancelled, the first tunnel to fail was not refused, and the attempts are not used up |
| Reconnect.EndsIff | internal/client/client.go:206-245 | a run goes on as long as it is answered; it ends in Failed exactly when, uncancelled, its last session was refused or used up the attempts, and in Stopped only by a cancellation |
| Reconnect.BoundedAttempts | internal/client/client.go:230-233 | with MaxAttempts m > 0 a run dials at most m times and, given m turns, returns; it waits once between attempts |
| Reconnect.WaitsBackOff | internal/client/client.go:235-243 | the n-th wait is the n-th backoff |
| Reconnect.RejectionIsFinal | internal/client/client.go:225-228 | a session that ends in a rejection is the last one |
| Reconnect.RejectionRetriedIff | internal/client/client.go:199-245 | after any session of any run in which a token was rejected, the loop dials again exactly when another error arrived first and the attempts are not used up |
| Reconnect.RejectionRetried | internal/client/client.go:295-301 | a run in which a rejected token is tried again |
| Reconnect.IntendedIsMin | internal/client/client.go:584-585 | the intended wait is min(2^(n-1), 30) seconds |
| Reconnect.BackoffIntendedIff | internal/client/client.go:585-591 | the wait is the intended one exactly for attempts 1 to 34 and eight later ones up to 63; at the others up to 63 it is not positive |
| KeyFile.SplitLines | internal/crypto/keys.go:128-143 | the index loop computes the pieces between line breaks |
| KeyFile.LinesIff | internal/crypto/keys.go:128-143 | the pieces are the one way to cut the input into non-empty break-free pieces, with separators of nothing but breaks that are not empty between two pieces |
| KeyFile.LinesKeepTheRest | internal/crypto/keys.go:128-143 | the pieces are not empty, hold no CR or LF, and together are the input with all CR and LF removed |
| KeyFile.UnhexIff | internal/crypto/keys.go:54-65 | decoding accepts exactly the encodings, in any mix of cases |
| KeyFile.UnhexExact | internal/crypto/keys.go:54-65 | decoding accepts exactly two digits 0-9, a-f or A-F for each byte, the high one first, and gives those bytes |
| KeyFile.UnhexFailsIff | internal/crypto/keys.go:54-65 | decoding fails exactly on an odd length or a byte that is no digit |
| KeyFile.ParseFromLines | internal/crypto/keys.go:102-119 | agrees with the pure reading of a key file, errors included |
| KeyFile.ParseIff | internal/crypto/keys.go:102-119 | a file holds a keypair exactly when its first two lines are the keys' digits |
| KeyFile.ParseErrors | internal/crypto/keys.go:102-119 | which of the errors is reported when: fewer than two lines, then the first line that is not 64 digits, as bad or as of another length |
| KeyFile.SavedRoundTrip | internal/crypto/keys.go:102-125 | a saved keypair is read back, for every keypair |
| KeyFile.KeyLinesRoundTrip | internal/crypto/keys.go:102-119 | so is any file whose first two lines are the keys' digits, however its lines are broken and whatever lines follow |
| KeyFile.CrLfRoundTrip | internal/crypto/keys.go:102-143 | a file with CR LF line ends is read back |
| KeyFile.Store.LoadOrGenerate | internal/crypto/keys.go:84-100 | after a load the file holds what was returned, so every later load returns the same keypair |
| Itoa.Itoa | internal/server/tunnel.go:165-185 | the array holds the canonical decimal of every int64 but the least, for which only a sign comes out; the index stays inside the 20 bytes |
| Itoa.DenotesOnce | internal/server/tunnel.go:165-185 | a number has one canonical decimal |
| Itoa.SignAlone | internal/server/tunnel.go:171-184 | a sign alone is no number's decimal |

## Left out

- yamux, TLS, QUIC handshakes, STUN, sockets, TUN devices and system commands: foreign calls. A stream is its bytes in chunks, a listener an open that may fail.
- JSON: a control frame is a newline-free line; binding and marshalling are not part of this model.
- The GUI, the dashboard, flags, profiles, certificates, scripts: plumbing or library work.
- Streams.Source.ReadFull: stands for io.ReadFull; of a failing read only the end of the stream is modelled.
- Streams.Sink.Write: writes succeed; failing writes are modelled where they matter: in `Rooms`, `Registry`, `UdpPeers` and `P2P`.
- Control.Decoder.ReadEnvelope: the error for a line that is no JSON object is left out, as JSON is.
- Control.Encode: the two writes of one call count as one step, and so do those of WritePacket; goroutines that interleave them on one stream are not modelled.
- Rooms.Room.GrantPeer: atomic here; the unlocked gaps before the insertion and before the publication of the size are the subject of `RoomWindow` and `RoomSize`.
- Rooms.Room.ReleasePeer: likewise; the cleanup of the peer's stream is left out.
- Rooms.ReadLoop: returns the packets it would route; their routing is `Rooms.Room.Route`, and read loops and routing together are the machine of `EndToEnd`, on values. The rxPackets counter is left out.
- Hub.HubInvariant: grants and releases, the publication of the size included, are atomic, and a connection has at most one live grant, which is what the shipped client does; without that an index entry is overwritten (`Rooms.InsertKeepsInvIff`) or the size goes wrong (`RoomSize.SizeWrong`).
- Rooms.Room.Broadcast: a write fails for a peer as a whole or not at all; what a failing write leaves on the stream is not modelled.
- Rooms.Room.Route: the lookup of the target and the write to it are one step.
- Hub.ForwardingExact: writes succeed and a route is one step, as in `EndToEnd.StreamToStream`; txPackets equals the frames on the current stream when a stream was attached once.
- Hub.VpnHub.EnsureRoom: the hub's grant is this and then `Rooms.Room.GrantPeer`; the two together are a step of the machine, not a method.
- Attaching a packet stream exists as a step of the machines, not as a method; the dispatch on a stream's first byte is left out.
- RoomJoin.MutualDiscovery: states what was sent; in VPN mode the client replaces its decoder and may drop buffered frames (`Control.HandOffLosslessIff` says when).
- RoomMembers includes the joining peer itself, and departures are never announced: notifyLeave is not called.
- Demux.DemultiplexesExactly: the TCP relay behind the table is a raw copy and is left out; the server may open a stream for any reserved tunnel, which is more than the code does.
- HandOff.SentExactly: whether a frame is a ping and so is answered is the environment's choice, as JSON is left out.
- HandOff.HandOffLossless: TCP and UDP tunnels only; the client sends nothing between Auth and its reply, and the server only replies, as their code does.
- Framing.ReadFrame: the payload is returned by value; that it aliases the caller's buffer until the next read is not captured.
- UdpTransport.HandleUdpStream: the lookup of the tunnel is the subject of `Demux`; a local dial that fails is left out.
- UdpTransport.ServePeer: one peer's datagrams taken by themselves; the one loop over all peers is the machine of `UdpServe`, on values.
- UdpServe.ServesEveryPeer: a stream whose tunnel id or HELLO cannot be written is closed at once and its bytes are not modelled.
- UdpPeers.TableConservation: a peer's lastSeen is written but never read by the code, and is left out.
- P2P.Conservation: the table alone; who may connect, and under which address an accepted peer is registered, is left out. Stop closes connections but keeps the entries.
- Reconnect.Run: past tunnel validation; cancellations, dials and tunnel errors are parameters, one record per attempt, and a finite environment may end before the run does.
- Reconnect.BackoffIntendedIff: from attempt 64 on the float64-to-int64 conversion is out of range and depends on the machine, so its result is a parameter.
- KeyFile.Store.LoadOrGenerate: read errors other than a missing file, failed writes, and the generation of keys are left out.
- The client's map of VPN peers (storePeer, removePeer), IPv4Src, gateway and mask helpers: easy members.
