// internal/server/room.go: one VPN room - its address allocator, its two
// indexes over the same peers, and packet forwarding inside the room.
module Rooms {
  import opened Bytes
  import opened Codec
  import opened Streams
  import opened Packets

  const HOSTS := 254

  /** Identity of a *Connection. */
  type Conn = nat

  datatype PeerInfo = PeerInfo(pubkey: string, edPubkey: string, endpoint: string)

  /** The fields of a vpnPeer that never change; `id` stands for the pointer. */
  datatype Member = Member(id: nat, ip: Address, conn: Conn, info: PeerInfo)

  /** One advance of the cursor, a byte that is set back to 1 at 255. */
  function Next(octet: Byte): Byte {
    var up := Increment(octet);
    if up >= 255 then 1 else up
  }

  /** Where a cursor that stands at `cursor` stands after `i` advances. */
  function Octet(cursor: Byte, i: nat): (octet: Byte)
    ensures IsHost(cursor) ==> IsHost(octet)
  {
    if i == 0 then cursor else Next(Octet(cursor, i - 1))
  }

  predicate IsHost(octet: int) {
    1 <= octet <= HOSTS
  }

  // ---- specification ----

  datatype RoomState = RoomState(
    base: Address, peers: map<Address, Member>, byConn: map<Conn, Member>, nextIP: Byte, size: nat)
  {
    /** The host of this room with the given last octet. */
    function Host(octet: Byte): Address {
      base.(d := octet)
    }

    ghost predicate InSubnet(ip: Address) {
      ip == base.(d := ip.d) && IsHost(ip.d)
    }

    /** Two inverse views of the same peers, all inside the subnet. */
    ghost predicate Indexed() {
      && IsHost(nextIP)
      && (forall a :: a in peers ==>
            && peers[a].ip == a && InSubnet(a)
            && peers[a].conn in byConn && byConn[peers[a].conn] == peers[a])
      && (forall c :: c in byConn ==>
            && byConn[c].conn == c
            && byConn[c].ip in peers && peers[byConn[c].ip] == byConn[c])
    }

    /** And the published size is right. */
    ghost predicate Inv() {
      Indexed() && size == |peers|
    }

    /** The octet examined after `j` advances is no free host. */
    predicate Taken(j: nat) {
      !IsHost(Octet(nextIP, j)) || Host(Octet(nextIP, j)) in peers
    }

    /** How many octets the allocator passes over, counted from `i`: it stops
        at the first free one, or after all 254. */
    function Skipped(i: nat): (n: nat)
      requires i <= HOSTS
      ensures i <= n <= HOSTS
      ensures forall j :: i <= j < n ==> Taken(j)
      ensures n < HOSTS ==> !Taken(n)
      decreases HOSTS - i
    {
      if i == HOSTS || !Taken(i) then i else Skipped(i + 1)
    }

    function Allocated(): Option<Address> {
      var n := Skipped(0);
      if n < HOSTS then Some(Host(Octet(nextIP, n))) else None
    }

    /** How far an allocation moves the cursor. */
    function Advances(): nat {
      if Skipped(0) < HOSTS then Skipped(0) + 1 else HOSTS
    }

    function AfterAllocate(): RoomState {
      this.(nextIP := Octet(nextIP, Advances()))
    }

    /** The critical section of a grant. */
    function Enter(m: Member): RoomState {
      this.(peers := peers[m.ip := m], byConn := byConn[m.conn := m])
    }

    /** The critical section of a release. */
    function Leave(conn: Conn): RoomState {
      if conn !in byConn then this
      else this.(peers := peers - {byConn[conn].ip}, byConn := byConn - {conn})
    }

    /** The size published after either of them, without the lock. */
    function Counted(): RoomState {
      this.(size := |peers|)
    }

    /** Grants and releases that nothing interrupts. */
    function Insert(m: Member): RoomState {
      Enter(m).Counted()
    }

    function Release(conn: Conn): RoomState {
      if conn !in byConn then this else Leave(conn).Counted()
    }
  }

  function EmptyRoom(base: Address): RoomState {
    RoomState(base, map[], map[], 1, 0)
  }

  /** A packet for an address, byte by byte (RFC 791, section 3.1): at least a
      header, version 4, and in bytes 16 to 19 that address, or one that ends
      in 255. */
  predicate IsForAddress(pkt: Packet, a: Address) {
    && |pkt| >= 20 && 0x40 <= pkt[0] < 0x50
    && (pkt[19] == 255 || (pkt[16] == a.a && pkt[17] == a.b && pkt[18] == a.c && pkt[19] == a.d))
  }

  /** The simple specification of forwarding: whether a packet that `from`
      sent is for `p`, a peer of the same room. */
  predicate IsFor(pkt: Packet, from: Member, p: Member) {
    p != from && IsForAddress(pkt, p.ip)
  }

  // ---- the allocator ----

  lemma ModStep(x: nat)
    ensures (x + 1) % HOSTS == if x % HOSTS == HOSTS - 1 then 0 else x % HOSTS + 1
  {
  }

  lemma ModDiffer(x: nat, y: nat)
    requires -HOSTS < x - y < HOSTS && x != y
    ensures x % HOSTS != y % HOSTS
  {
  }

  lemma {:induction false} OctetClosedForm(cursor: Byte, i: nat)
    requires IsHost(cursor)
    ensures Octet(cursor, i) == (cursor - 1 + i) % HOSTS + 1
  {
    if i == 0 {
    } else {
      OctetClosedForm(cursor, i - 1);
      ModStep(cursor - 1 + (i - 1));
    }
  }

  /** Positions less than 254 advances apart are different octets. */
  lemma OctetsDiffer(cursor: Byte, i: nat, j: nat)
    requires IsHost(cursor) && -HOSTS < i - j < HOSTS && i != j
    ensures Octet(cursor, i) != Octet(cursor, j)
  {
    OctetClosedForm(cursor, i);
    OctetClosedForm(cursor, j);
    ModDiffer(cursor - 1 + i, cursor - 1 + j);
  }

  /** At which of the next 254 positions an octet is examined. */
  function PositionOf(cursor: Byte, octet: Byte): (i: nat)
    requires IsHost(cursor) && IsHost(octet)
    ensures i < HOSTS && Octet(cursor, i) == octet
  {
    var i := if octet >= cursor then octet - cursor else octet - cursor + HOSTS;
    OctetClosedForm(cursor, i);
    i
  }

  /** 254 successive positions of the cursor are the 254 host octets, each
      exactly once: octet `o` at the position PositionOf gives, and at no other. */
  lemma EveryOctetOnce(cursor: Byte, octet: Byte, i: nat)
    requires IsHost(cursor) && IsHost(octet) && i < HOSTS
    ensures Octet(cursor, i) == octet <==> i == PositionOf(cursor, octet)
  {
    var k := PositionOf(cursor, octet);
    if i != k {
      OctetsDiffer(cursor, i, k);
    }
  }

  /** A full turn brings the cursor back to where it stood. */
  lemma CursorReturns(cursor: Byte, turn: nat)
    requires IsHost(cursor) && turn == HOSTS
    ensures Octet(cursor, turn) == cursor
  {
    OctetClosedForm(cursor, turn);
  }

  /** The `n`-th octet from the cursor is free, and none before it is. */
  ghost predicate FirstFree(r: RoomState, n: nat) {
    && n < HOSTS
    && !r.Taken(n)
    && (forall j: nat :: j < n ==> r.Taken(j))
  }

  /** Allocation fails exactly when all 254 addresses are taken; otherwise it
      returns a free address, and none before it in cyclic order was free. */
  lemma AllocationExact(r: RoomState)
    requires IsHost(r.nextIP)
    ensures r.Allocated() == None <==> forall o: Byte :: IsHost(o) ==> r.Host(o) in r.peers
    ensures r.Allocated().Some? ==> FirstFree(r, r.Skipped(0))
    ensures forall n: nat :: FirstFree(r, n) ==>
      && r.Allocated() == Some(r.Host(Octet(r.nextIP, n)))
      && r.AfterAllocate().nextIP == Octet(r.nextIP, n + 1)
    ensures r.Allocated() == None ==> r.AfterAllocate() == r
    ensures IsHost(r.AfterAllocate().nextIP)
  {
    var n := r.Skipped(0);
    forall m: nat | FirstFree(r, m) ensures m == n {
      var atN, atM := r.Taken(n), r.Taken(m);
    }
    if n == HOSTS {
      CursorReturns(r.nextIP, n);
      forall o: Byte | IsHost(o) ensures r.Host(o) in r.peers {
        assert r.Taken(PositionOf(r.nextIP, o));
      }
    } else {
      assert IsHost(Octet(r.nextIP, n));
    }
  }

  // ---- the room invariant ----

  lemma AllocateKeepsInv(r: RoomState)
    requires r.Indexed()
    ensures r.AfterAllocate().Indexed() && (r.Inv() ==> r.AfterAllocate().Inv())
    ensures r.Allocated().Some? ==> r.InSubnet(r.Allocated().value) && r.Allocated().value !in r.peers
    ensures r.Allocated().Some? ==> r.Allocated().value == r.base.(d := r.Allocated().value.d) && 1 <= r.Allocated().value.d <= 254
  {
  }

  lemma EnterKeepsIndexes(r: RoomState, m: Member)
    requires r.Indexed() && r.InSubnet(m.ip)
    requires if m.ip in r.peers then r.peers[m.ip].conn == m.conn else m.conn !in r.byConn
    ensures r.Enter(m).Indexed()
  {
  }

  lemma EnterBreaksIndexes(r: RoomState, m: Member)
    requires r.Indexed() && forall a :: a in r.peers ==> r.peers[a] != m
    requires if m.ip in r.peers then r.peers[m.ip].conn != m.conn else m.conn in r.byConn
    ensures !r.Enter(m).Indexed()
  {
    var r' := r.Enter(m);
    if m.ip in r.peers {
      var before := r.peers[m.ip];
      assert r'.byConn[before.conn] == before && r'.peers[before.ip] == m;
    } else {
      var before := r.byConn[m.conn];
      assert r'.peers[before.ip] == before && r'.byConn[before.conn] == m;
    }
  }

  /** Inserting a new peer keeps the two indexes consistent exactly when its
      address and its connection are both free, or are those of one and the
      same peer, which is then replaced. This can fail: the allocator's lock is
      dropped before the insertion, and nothing stops a connection from being
      granted twice. */
  lemma InsertKeepsInvIff(r: RoomState, m: Member)
    requires r.Indexed() && r.InSubnet(m.ip)
    requires forall a :: a in r.peers ==> r.peers[a] != m
    ensures r.Enter(m).Indexed() <==> if m.ip in r.peers then r.peers[m.ip].conn == m.conn else m.conn !in r.byConn
    ensures r.Insert(m).Inv() <==> r.Enter(m).Indexed()
  {
    if (if m.ip in r.peers then r.peers[m.ip].conn == m.conn else m.conn !in r.byConn) {
      EnterKeepsIndexes(r, m);
    } else {
      EnterBreaksIndexes(r, m);
    }
  }

  lemma ReleaseKeepsInv(r: RoomState, conn: Conn)
    requires r.Indexed()
    ensures r.Leave(conn).Indexed() && r.Release(conn).Indexed()
    ensures r.Inv() || conn in r.byConn ==> r.Release(conn).Inv()
    ensures conn !in r.Release(conn).byConn
    ensures forall a :: a in r.peers && r.peers[a].conn != conn ==>
      a in r.Release(conn).peers && r.Release(conn).peers[a] == r.peers[a]
  {
  }

  /** Releasing twice is releasing once. */
  lemma ReleaseTwice(r: RoomState, conn: Conn)
    ensures r.Release(conn).Release(conn) == r.Release(conn)
  {
  }

  /** A grant (allocate, then insert) followed by a release of the same
      connection restores the membership; only the cursor has moved on. */
  lemma GrantThenRelease(r: RoomState, m: Member)
    requires r.Inv() && r.Allocated() == Some(m.ip) && m.conn !in r.byConn
    ensures r.AfterAllocate().Insert(m).Inv()
    ensures r.AfterAllocate().Insert(m).Release(m.conn) == r.AfterAllocate()
  {
    AllocateKeepsInv(r);
    var a := r.AfterAllocate();
    assert a.peers[m.ip := m] - {m.ip} == a.peers;
    assert a.byConn[m.conn := m] - {m.conn} == a.byConn;
  }

  // ---- the room as the program keeps it ----

  class Peer {
    const who: Member
    var pkts: Option<seq<Byte>>   // bytes written to the packet stream, once one is attached
    var broken: bool              // writes to it fail
    var txPackets: nat
    var rxPackets: nat

    constructor (who: Member)
      ensures this.who == who && pkts == None && !broken && txPackets == 0 && rxPackets == 0
    {
      this.who := who;
      pkts, broken, txPackets, rxPackets := None, false, 0, 0;
    }

    /** Write one packet to the peer's stream, if it has one that works. */
    method Send(pkt: Packet)
      requires Fits(pkt)
      modifies this`pkts, this`txPackets
      ensures old(pkts) == None || broken ==> pkts == old(pkts) && txPackets == old(txPackets)
      ensures old(pkts).Some? && !broken ==>
        pkts == Some(old(pkts).value + EncodePacket(pkt)) && txPackets == old(txPackets) + 1
    {
      if pkts.Some? && !broken {
        pkts := Some(pkts.value + EncodePacket(pkt));
        txPackets := txPackets + 1;
      }
    }
  }

  /** What a peer's stream and counter must be after one routing step: a write
      that fails counts for nothing, and stops no other one. */
  twostate predicate Forwarded(p: Peer, pkt: Packet, given: bool)
    reads p
  {
    && p.rxPackets == old(p.rxPackets) && p.broken == old(p.broken)
    && (if given && old(p.pkts).Some? && !old(p.broken)
        then p.pkts == Some(old(p.pkts).value + EncodePacket(pkt)) && p.txPackets == old(p.txPackets) + 1
        else p.pkts == old(p.pkts) && p.txPackets == old(p.txPackets))
  }

  /** The indexes are in order, and every identity in them leads to its object. */
  ghost predicate Sound(r: RoomState, heap: map<Member, Peer>) {
    && r.Indexed()
    && (forall m :: m in heap ==> heap[m].who == m)
    && (forall a :: a in r.peers ==> r.peers[a] in heap)
  }

  lemma SoundCounted(r: RoomState, heap: map<Member, Peer>)
    ensures Sound(r.Counted(), heap) <==> Sound(r, heap)
  {
  }

  lemma SoundLeft(r: RoomState, conn: Conn, heap: map<Member, Peer>)
    requires Sound(r, heap)
    ensures Sound(r.Leave(conn), heap)
  {
    ReleaseKeepsInv(r, conn);
  }

  lemma SoundEntered(r: RoomState, heap: map<Member, Peer>, peer: Peer)
    requires Sound(r, heap) && peer.who !in heap && r.InSubnet(peer.who.ip)
    ensures Sound(r.Enter(peer.who), heap[peer.who := peer]) <==>
      if peer.who.ip in r.peers then r.peers[peer.who.ip].conn == peer.who.conn else peer.who.conn !in r.byConn
  {
    InsertKeepsInvIff(r, peer.who);
  }

  /** `peers` and `byConn` hold pointers to vpnPeer objects: here they hold the
      identities, and `heap` leads from an identity to the object. A peer that
      was released leaves both indexes, not the heap: its reader still holds it. */
  class Room {
    const name: string
    const private: bool
    const password: string
    const base: Address
    var peers: map<Address, Member>
    var byConn: map<Conn, Member>
    var nextIP: Byte
    var peerCount: nat
    var heap: map<Member, Peer>

    constructor (name: string, base: Address, private: bool, password: string)
      ensures this.name == name && this.base == base && this.private == private && this.password == password
      ensures Valid() && View() == EmptyRoom(base) && heap == map[]
    {
      this.name, this.base, this.private, this.password := name, base, private, password;
      peers, byConn, nextIP, peerCount := map[], map[], 1, 0;
      heap := map[];
    }

    function View(): RoomState
      reads this
    {
      RoomState(base, peers, byConn, nextIP, peerCount)
    }

    ghost predicate Valid()
      reads this
    {
      Sound(View(), heap)
    }

    /** The 254-step scan. */
    method Allocate() returns (ip: Option<Address>)
      requires IsHost(nextIP)
      modifies this`nextIP
      ensures ip == old(View()).Allocated()
      ensures View() == old(View()).AfterAllocate()
    {
      ghost var r := View();
      for i := 0 to HOSTS
        invariant nextIP == Octet(r.nextIP, i)
        invariant forall j :: 0 <= j < i ==> r.Taken(j)
      {
        var oct := nextIP;
        nextIP := Increment(nextIP);
        if nextIP >= 255 {
          nextIP := 1;
        }
        if oct == 0 || oct == 255 {
          continue;
        }
        var candidate := base.(d := oct);
        if candidate in peers {
          assert r.Taken(i);
          continue;
        }
        SkippedIs(r, i);
        return Some(candidate);
      }
      SkippedIs(r, HOSTS);
      ip := None;
    }

    /** The second critical section of a grant. It leaves the room in order
        exactly when the address and the connection were free, or were those of
        one peer. */
    method InsertPeer(peer: Peer)
      requires Valid() && peer.who !in heap && View().InSubnet(peer.who.ip)
      modifies this`peers, this`byConn, this`heap
      ensures View() == old(View()).Enter(peer.who) && heap == old(heap)[peer.who := peer]
      ensures Valid() <==>
        if peer.who.ip in old(peers) then old(peers)[peer.who.ip].conn == peer.who.conn else peer.who.conn !in old(byConn)
    {
      SoundEntered(View(), heap, peer);
      ghost var after := View().Enter(peer.who);
      peers := peers[peer.who.ip := peer.who];
      byConn := byConn[peer.who.conn := peer.who];
      heap := heap[peer.who := peer];
      assert View() == after;
    }

    /** From a drawn address to a counted peer. */
    method AdmitPeer(who: Member) returns (p: Peer)
      requires Valid() && who !in heap && View().InSubnet(who.ip) && who.ip !in peers
      modifies this`peers, this`byConn, this`heap, this`peerCount
      ensures fresh(p) && p.who == who && p.pkts == None && !p.broken && p.txPackets == 0 && p.rxPackets == 0
      ensures View() == old(View()).Insert(who) && heap == old(heap)[who := p]
      ensures Valid() <==> who.conn !in old(byConn)
    {
      p := new Peer(who);
      InsertPeer(p);
      SoundCounted(View(), heap);
      peerCount := |peers|;
    }

    /** A grant that nothing interrupts. Nothing stops a connection from being
        granted twice; the room is then in order no more. */
    method GrantPeer(id: nat, conn: Conn, info: PeerInfo) returns (p: Option<Peer>)
      requires Valid() && forall m :: m in heap ==> m.id != id
      modifies this
      ensures Valid() <==> p == None || conn !in old(byConn)
      ensures p == None <==> old(View()).Allocated() == None
      ensures p == None ==> View() == old(View()).AfterAllocate() && heap == old(heap)
      ensures p.Some? ==>
        && fresh(p.value)
        && p.value.who == Member(id, old(View()).Allocated().value, conn, info)
        && p.value.pkts == None && !p.value.broken && p.value.txPackets == 0 && p.value.rxPackets == 0
        && View() == old(View()).AfterAllocate().Insert(p.value.who)
        && heap == old(heap)[p.value.who := p.value]
    {
      AllocateKeepsInv(View());
      var ip := Allocate();
      if ip == None {
        return None;
      }
      var peer := AdmitPeer(Member(id, ip.value, conn, info));
      p := Some(peer);
    }

    /** The critical section of a release. */
    method RemovePeer(conn: Conn) returns (p: Option<Member>)
      requires Valid()
      modifies this`peers, this`byConn
      ensures Valid()
      ensures p == if conn in old(byConn) then Some(old(byConn)[conn]) else None
      ensures View() == old(View()).Leave(conn)
    {
      if conn !in byConn {
        return None;
      }
      SoundLeft(View(), conn, heap);
      ghost var after := View().Leave(conn);
      var peer := byConn[conn];
      peers := peers - {peer.ip};
      byConn := byConn - {conn};
      assert View() == after;
      p := Some(peer);
    }

    method ReleasePeer(conn: Conn) returns (p: Option<Member>)
      requires Valid()
      modifies this`peers, this`byConn, this`peerCount
      ensures Valid()
      ensures p == if conn in old(byConn) then Some(old(byConn)[conn]) else None
      ensures View() == old(View()).Release(conn)
    {
      p := RemovePeer(conn);
      if p == None {
        return;
      }
      SoundCounted(View(), heap);
      peerCount := |peers|;
    }

    /** Everyone in the room, the caller included. */
    method PeersSnapshot() returns (out: seq<Member>)
      requires Valid()
      ensures |out| == |peers|
      ensures forall m :: m in out <==> m.ip in peers && peers[m.ip] == m
    {
      out := [];
      var todo := peers.Keys;
      while todo != {}
        invariant todo <= peers.Keys && |out| + |todo| == |peers|
        invariant forall m :: m in out ==> m.ip in peers && peers[m.ip] == m
        invariant forall a :: a in peers ==> a in todo || peers[a] in out
        decreases todo
      {
        var a :| a in todo;
        out := out + [peers[a]];
        todo := todo - {a};
      }
    }

    /** Send to every other peer of the room that has a stream. */
    method Broadcast(pkt: Packet, from: Member)
      requires Valid() && Fits(pkt)
      modifies heap.Values
      ensures forall a :: a in peers ==> Forwarded(heap[peers[a]], pkt, peers[a] != from)
      ensures forall m :: m in heap && (m.ip !in peers || peers[m.ip] != m) ==> unchanged(heap[m])
    {
      var left := peers.Keys;
      while left != {}
        invariant left <= peers.Keys
        invariant forall a :: a in peers && a !in left ==> Forwarded(heap[peers[a]], pkt, peers[a] != from)
        invariant forall m :: m in heap && (m.ip !in peers || peers[m.ip] != m || m.ip in left) ==> unchanged(heap[m])
        decreases left
      {
        var a :| a in left;
        if peers[a] != from {
          heap[peers[a]].Send(pkt);
        }
        left := left - {a};
      }
    }

    /** One packet from `from`, who may have left the room meanwhile. */
    method Route(pkt: Packet, from: Member)
      requires Valid() && Fits(pkt)
      modifies heap.Values
      ensures forall a :: a in peers ==> Forwarded(heap[peers[a]], pkt, IsFor(pkt, from, peers[a]))
      ensures forall m :: m in heap && (m.ip !in peers || peers[m.ip] != m) ==> unchanged(heap[m])
    {
      assert forall a :: a in peers ==> peers[a].ip == a && IsHost(a.d);
      var dst := IPv4Dst(pkt);
      if dst == None {
        return;
      }
      if IsBroadcast(dst.value) {
        Broadcast(pkt, from);
        return;
      }
      if dst.value !in peers {
        return;
      }
      var target := peers[dst.value];
      if target == from {
        return;
      }
      heap[target].Send(pkt);
    }
  }

  /** The packets a read loop routes: those with content. */
  function Sent(s: seq<Byte>): seq<Packet> {
    NonEmpty(DecodeAll(ParsePacket, s).0)
  }

  /** One turn of the read loop's reading half. */
  method NextToRoute(r: Source, buf: array<Byte>) returns (pkts: seq<Packet>, more: bool)
    requires buf.Length == MAX_PACKET_LEN
    modifies r, buf
    ensures |pkts| <= 1 && forall i :: 0 <= i < |pkts| ==> Fits(pkts[i])
    ensures Sent(old(r.Bytes())) == pkts + if more then Sent(r.Bytes()) else []
    ensures more ==> |r.Bytes()| < |old(r.Bytes())|
  {
    NextPacket(r.Bytes());
    var n, err := ReadPacket(r, buf);
    if err != None {
      return [], false;
    }
    pkts, more := if n == 0 then [] else [buf[..n]], true;
  }

  /** A peer's read loop: what it hands to Route, one packet at a time. */
  method ReadLoop(r: Source) returns (routed: seq<Packet>)
    modifies r
    ensures routed == Sent(old(r.Bytes()))
  {
    var buf := new Byte[MAX_PACKET_LEN];
    routed := [];
    var more := true;
    while more
      invariant Sent(old(r.Bytes())) == routed + if more then Sent(r.Bytes()) else []
      decreases more, |r.Bytes()|
    {
      var pkts;
      pkts, more := NextToRoute(r, buf);
      routed := routed + pkts;
    }
  }

  // ---- helpers ----

  lemma SkippedIs(r: RoomState, n: nat)
    requires n <= HOSTS
    requires forall j :: 0 <= j < n ==> r.Taken(j)
    requires n < HOSTS ==> !r.Taken(n)
    ensures r.Skipped(0) == n
  {
    var s := r.Skipped(0);
    var atS, atN := r.Taken(s), r.Taken(n);
  }

  lemma NextPacket(s: seq<Byte>)
    ensures match ParsePacket(s)
      case Failed(_) => Sent(s) == []
      case Parsed(pkt, rest) =>
        && |rest| < |s| && Fits(pkt)
        && Sent(s) == (if pkt == [] then [] else [pkt]) + Sent(rest)
  {
    match ParsePacket(s)
    case Failed(_) =>
    case Parsed(pkt, rest) =>
      DecodeAllStep(ParsePacket, s);
      var more := DecodeAll(ParsePacket, rest).0;
      assert ([pkt] + more)[1..] == more;
  }

  lemma InsertFresh(r: RoomState, m: Member)
    requires r.Indexed() && r.InSubnet(m.ip) && m.ip !in r.peers && m.conn !in r.byConn
    ensures r.Enter(m).Indexed() && r.Insert(m).Inv()
  {
    InsertKeepsInvIff(r, m);
  }
}
