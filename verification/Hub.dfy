// internal/server/vpn.go: the hub of rooms, over whole runs - rooms and their
// subnets, grants, releases, packet streams, and routed packets. A grant is
// one step here; its two critical sections are taken apart in RoomJoin.
module Hub {
  import opened Bytes
  import opened Codec
  import opened Packets
  import opened Rooms
  import Runs

  const SUBNETS := 256

  datatype RoomRec = RoomRec(room: RoomState, private: bool, password: string)

  /** A peer's packet stream, once attached, and its txPackets counter. */
  datatype Line = Line(stream: Option<seq<Byte>>, tx: nat)

  datatype State = State(
    rooms: map<string, RoomRec>,
    nextSubnet: Byte,
    created: seq<string>,         // history: room names in order of creation
    number: map<string, nat>,     // history: the place of each name in that order
    lines: map<Member, Line>,     // every peer ever granted
    home: map<Member, string>)    // the room each of them was granted in
  {
    ghost predicate InRoom(m: Member) {
      && m in home && home[m] in rooms
      && m.ip in rooms[home[m]].room.peers && rooms[home[m]].room.peers[m.ip] == m
    }

    /** `m` is the peer the hub finds for a connection. */
    ghost predicate Owns(conn: Conn, m: Member) {
      && m in home && home[m] in rooms
      && conn in rooms[home[m]].room.byConn && rooms[home[m]].room.byConn[conn] == m
    }

    ghost predicate Live(conn: Conn) {
      exists n :: n in rooms && conn in rooms[n].room.byConn
    }

    predicate Admits(name: string, password: string) {
      name in rooms && rooms[name].private ==> rooms[name].password == password
    }

    /** ensureRoom, when it admits: the first one in creates the room. */
    function WithRoom(name: string, password: string): (s: State)
      ensures name in s.rooms && s.lines == lines && s.home == home
    {
      if name in rooms then this
      else this.(
        rooms := rooms[name := RoomRec(EmptyRoom(Subnet(nextSubnet)), password != "", password)],
        nextSubnet := Increment(nextSubnet),
        created := created + [name],
        number := number[name := |created|])
    }

    function SetRoom(name: string, room: RoomState): State
      requires name in rooms
    {
      this.(rooms := rooms[name := rooms[name].(room := room)])
    }
  }

  /** 10.99.x.0/24 */
  function Subnet(x: Byte): Address {
    Address(10, 99, x, 0)
  }

  datatype Action =
    | Grant(name: string, password: string, m: Member)
    | Refuse(name: string, password: string)          // bad password, or room full
    | Release(conn: Conn)
    | Attach(conn: Conn)
    | Route(from: Member, pkt: Packet)

  /** newVPNHub: the lobby exists from the start. */
  function Init(): State {
    State(map[], 0, [], map[], map[], map[]).WithRoom("lobby", "")
  }

  /** Whom the code of `route` writes a packet to. */
  function Recipients(room: RoomState, pkt: Packet, from: Member): set<Member> {
    match IPv4Dst(pkt)
    case None => {}
    case Some(dst) =>
      if IsBroadcast(dst) then room.peers.Values - {from}
      else if dst in room.peers && room.peers[dst] != from then {room.peers[dst]}
      else {}
  }

  ghost predicate Enabled(s: State, a: Action) {
    match a
    case Grant(name, password, m) =>
      && s.Admits(name, password)
      && s.WithRoom(name, password).rooms[name].room.Allocated() == Some(m.ip)
      && (forall n :: n in s.lines ==> n.id != m.id)
      && !s.Live(m.conn)                              // one live grant per connection
    case Refuse(name, password) =>
      !s.Admits(name, password) || s.WithRoom(name, password).rooms[name].room.Allocated() == None
    case Release(_) => true
    case Attach(_) => true
    case Route(from, pkt) => from in s.lines && Fits(pkt)
  }

  ghost function Apply(s: State, a: Action): State {
    match a
    case Grant(name, password, m) =>
      var s1 := s.WithRoom(name, password);
      s1.SetRoom(name, s1.rooms[name].room.AfterAllocate().Insert(m))
        .(lines := s.lines[m := Line(None, 0)], home := s.home[m := name])
    case Refuse(name, password) =>
      if !s.Admits(name, password) then s
      else
        var s1 := s.WithRoom(name, password);
        s1.SetRoom(name, s1.rooms[name].room.AfterAllocate())
    case Release(conn) =>
      s.(rooms := map n | n in s.rooms :: s.rooms[n].(room := s.rooms[n].room.Release(conn)))
    case Attach(conn) =>
      s.(lines := map m | m in s.lines :: if s.Owns(conn, m) then Line(Some([]), s.lines[m].tx) else s.lines[m])
    case Route(from, pkt) =>
      s.(lines := map m | m in s.lines :: AfterRoute(s, from, pkt, m))
  }

  ghost function AfterRoute(s: State, from: Member, pkt: Packet, m: Member): Line
    requires m in s.lines
  {
    if && from in s.home && s.home[from] in s.rooms
       && m in Recipients(s.rooms[s.home[from]].room, pkt, from)
       && s.lines[m].stream.Some?
    then Line(Some(s.lines[m].stream.value + EncodePacket(pkt)), s.lines[m].tx + 1)
    else s.lines[m]
  }

  ghost predicate IsRun(ss: seq<State>, acts: seq<Action>) {
    Runs.IsRun(Init(), Enabled, Apply, ss, acts)
  }

  // ---- invariants ----

  /** The i-th room ever created has the i-th subnet, counted modulo 256. */
  ghost predicate Numbered(s: State) {
    && |s.rooms| == |s.created|
    && s.nextSubnet == Counted(|s.created|)
    && (forall i :: 0 <= i < |s.created| ==> NumberedRoom(s, s.created[i], i))
    && (forall n :: n in s.rooms ==> n in s.number && s.number[n] < |s.created| && s.created[s.number[n]] == n)
  }

  ghost predicate NumberedRoom(s: State, name: string, i: nat) {
    && name in s.number && s.number[name] == i
    && name in s.rooms && s.rooms[name].room.base == Subnet(Counted(i))
  }

  ghost predicate RoomsInv(s: State) {
    forall n :: n in s.rooms ==> s.rooms[n].room.Inv()
  }

  /** Every peer of a room was granted in that room. */
  ghost predicate Homed(s: State) {
    && s.lines.Keys == s.home.Keys
    && (forall n, a :: n in s.rooms && a in s.rooms[n].room.peers ==>
          s.rooms[n].room.peers[a] in s.home && s.home[s.rooms[n].room.peers[a]] == n)
    && (forall m :: m in s.home ==> s.home[m] in s.rooms)
  }

  /** A connection has at most one peer in the whole hub. */
  ghost predicate OneGrant(s: State) {
    forall n1, n2, c :: n1 in s.rooms && n2 in s.rooms && c in s.rooms[n1].room.byConn && c in s.rooms[n2].room.byConn ==> n1 == n2
  }

  ghost predicate Inv(s: State) {
    Numbered(s) && RoomsInv(s) && Homed(s) && OneGrant(s)
  }

  lemma SameSize<K, V, W>(m: map<K, V>, n: map<K, W>)
    requires m.Keys == n.Keys
    ensures |m| == |n|
  {
    assert |m| == |m.Keys| && |n| == |n.Keys|;
  }

  ghost predicate SameSubnets(s: State, s': State) {
    && s'.created == s.created && s'.number == s.number && s'.nextSubnet == s.nextSubnet
    && s'.rooms.Keys == s.rooms.Keys && forall n :: n in s.rooms ==> s'.rooms[n].room.base == s.rooms[n].room.base
  }

  lemma NumberedKept(s: State, s': State)
    requires Numbered(s) && SameSubnets(s, s')
    ensures Numbered(s')
  {
    SameSize(s'.rooms, s.rooms);
    assert forall i :: 0 <= i < |s.created| ==> NumberedRoom(s, s.created[i], i);
  }

  lemma WithRoomNumbered(s: State, name: string, password: string)
    requires Numbered(s)
    ensures Numbered(s.WithRoom(name, password))
  {
    if name !in s.rooms {
      var s1 := s.WithRoom(name, password);
      assert |s1.rooms| == |s.rooms| + 1;
      forall i | 0 <= i < |s1.created| ensures NumberedRoom(s1, s1.created[i], i) {
        assert i < |s.created| ==> NumberedRoom(s, s.created[i], i);
      }
    }
  }

  /** The state in which a step finds its room, created if need be. */
  ghost function Prepared(s: State, a: Action): State {
    if a.Grant? || (a.Refuse? && s.Admits(a.name, a.password)) then s.WithRoom(a.name, a.password) else s
  }

  lemma SetRoomKeepsSubnets(s: State, name: string, room: RoomState)
    requires name in s.rooms && room.base == s.rooms[name].room.base
    ensures SameSubnets(s, s.SetRoom(name, room))
  {
  }

  /** Apart from that, no step creates a room or changes a subnet. */
  lemma StepKeepsSubnets(s: State, a: Action)
    requires Enabled(s, a)
    ensures SameSubnets(Prepared(s, a), Apply(s, a))
  {
    var s1 := Prepared(s, a);
    if a.Grant? {
      SetRoomKeepsSubnets(s1, a.name, s1.rooms[a.name].room.AfterAllocate().Insert(a.m));
    } else if a.Refuse? && s.Admits(a.name, a.password) {
      SetRoomKeepsSubnets(s1, a.name, s1.rooms[a.name].room.AfterAllocate());
    }
  }

  lemma StepNumbered(s: State, a: Action)
    requires Numbered(s) && Enabled(s, a)
    ensures Numbered(Apply(s, a))
  {
    if a.Grant? || a.Refuse? {
      WithRoomNumbered(s, a.name, a.password);
    }
    StepKeepsSubnets(s, a);
    NumberedKept(Prepared(s, a), Apply(s, a));
  }

  lemma GrantRoom(r: RoomState, m: Member)
    requires r.Inv() && r.Allocated() == Some(m.ip) && m.conn !in r.byConn
    ensures r.AfterAllocate().Insert(m).Inv()
  {
    AllocateKeepsInv(r);
    InsertFresh(r.AfterAllocate(), m);
  }

  lemma WithRoomInv(s: State, name: string, password: string, n: string)
    requires RoomsInv(s) && n in s.WithRoom(name, password).rooms
    ensures s.WithRoom(name, password).rooms[n].room.Inv()
    ensures forall c :: c in s.WithRoom(name, password).rooms[n].room.byConn ==> s.Live(c)
  {
    var s1 := s.WithRoom(name, password);
    assert s1.rooms[n].room == EmptyRoom(Subnet(s.nextSubnet)) || (n in s.rooms && s1.rooms[n] == s.rooms[n]);
  }

  lemma GrantRoomsInv(s: State, name: string, password: string, m: Member, n: string)
    requires RoomsInv(s) && Enabled(s, Grant(name, password, m)) && n in Apply(s, Grant(name, password, m)).rooms
    ensures Apply(s, Grant(name, password, m)).rooms[n].room.Inv()
  {
    WithRoomInv(s, name, password, n);
    if n == name {
      GrantRoom(s.WithRoom(name, password).rooms[n].room, m);
    }
  }

  lemma StepRoomsInv(s: State, a: Action, n: string)
    requires RoomsInv(s) && Enabled(s, a) && n in Apply(s, a).rooms
    ensures Apply(s, a).rooms[n].room.Inv()
  {
    match a
    case Grant(name, password, m) =>
      GrantRoomsInv(s, name, password, m, n);
    case Refuse(name, password) =>
      if s.Admits(name, password) {
        WithRoomInv(s, name, password, n);
        AllocateKeepsInv(s.WithRoom(name, password).rooms[n].room);
      }
    case Release(conn) =>
      ReleaseKeepsInv(s.rooms[n].room, conn);
    case Attach(_) =>
    case Route(_, _) =>
  }

  lemma HomedSetRoom(s: State, name: string, room: RoomState, home: map<Member, string>, lines: map<Member, Line>)
    requires Homed(s) && name in s.rooms && lines.Keys == home.Keys
    requires forall m :: m in s.home ==> m in home && home[m] == s.home[m]
    requires forall m :: m in home ==> m in s.home || home[m] == name
    requires forall a :: a in room.peers ==> room.peers[a] in home && home[room.peers[a]] == name
    ensures Homed(s.SetRoom(name, room).(lines := lines, home := home))
  {
  }

  lemma HomedWithRoom(s: State, name: string, password: string)
    requires Homed(s)
    ensures Homed(s.WithRoom(name, password))
  {
  }

  lemma StepHomed(s: State, a: Action)
    requires Homed(s) && Enabled(s, a)
    ensures Homed(Apply(s, a))
  {
    match a
    case Grant(name, password, m) =>
      assert m !in s.home;
      HomedWithRoom(s, name, password);
      var s1 := s.WithRoom(name, password);
      HomedSetRoom(s1, name, s1.rooms[name].room.AfterAllocate().Insert(m), s.home[m := name], s.lines[m := Line(None, 0)]);
    case Refuse(name, password) =>
      if s.Admits(name, password) {
        HomedWithRoom(s, name, password);
        var s1 := s.WithRoom(name, password);
        HomedSetRoom(s1, name, s1.rooms[name].room.AfterAllocate(), s.home, s.lines);
      }
    case Release(conn) =>
    case _ =>
      assert Apply(s, a).lines.Keys == s.lines.Keys;
  }

  /** Where a connection is found after a step: where it was, or where it has
      just been granted. */
  lemma StepFound(s: State, a: Action, n: string, c: Conn)
    requires Enabled(s, a) && n in Apply(s, a).rooms && c in Apply(s, a).rooms[n].room.byConn
    ensures (n in s.rooms && c in s.rooms[n].room.byConn) || (a.Grant? && c == a.m.conn && n == a.name)
  {
  }

  lemma StepOneGrant(s: State, a: Action)
    requires OneGrant(s) && Enabled(s, a)
    ensures OneGrant(Apply(s, a))
  {
    var rooms := Apply(s, a).rooms;
    forall n1, n2, c | n1 in rooms && n2 in rooms && c in rooms[n1].room.byConn && c in rooms[n2].room.byConn
      ensures n1 == n2
    {
      StepFound(s, a, n1, c);
      StepFound(s, a, n2, c);
    }
  }

  lemma StepInv(s: State, a: Action)
    requires Inv(s) && Enabled(s, a)
    ensures Inv(Apply(s, a))
  {
    StepNumbered(s, a);
    StepHomed(s, a);
    StepOneGrant(s, a);
    forall n | n in Apply(s, a).rooms ensures Apply(s, a).rooms[n].room.Inv() {
      StepRoomsInv(s, a, n);
    }
  }

  lemma InitInv()
    ensures Inv(Init())
  {
    assert Init().created == ["lobby"] && NumberedRoom(Init(), "lobby", 0);
    assert Init().rooms == map["lobby" := RoomRec(EmptyRoom(Subnet(0)), false, "")];
  }

  /** Over any run: every room's indexes stay inverse views of the same peers,
      all inside the room's subnet, and no connection has two peers. */
  lemma HubInvariant(ss: seq<State>, acts: seq<Action>, i: nat)
    requires IsRun(ss, acts) && i < |ss|
    ensures Inv(ss[i])
  {
    forall s, a | Inv(s) && Enabled(s, a) ensures Inv(Apply(s, a)) {
      StepInv(s, a);
    }
    InitInv();
    Runs.Always(Init(), Enabled, Apply, Inv, ss, acts, i);
  }

  // ---- membership ----

  lemma OwnsIff(s: State, conn: Conn, m: Member)
    requires Inv(s)
    ensures s.Owns(conn, m) <==> s.InRoom(m) && m.conn == conn
  {
    if m in s.home && s.home[m] in s.rooms {
      OwnsInRoom(s.rooms[s.home[m]].room, conn, m);
    }
  }

  lemma OwnsInRoom(r: RoomState, conn: Conn, m: Member)
    requires r.Inv()
    ensures (conn in r.byConn && r.byConn[conn] == m) <==> (m.ip in r.peers && r.peers[m.ip] == m && m.conn == conn)
  {
  }

  lemma GrantEnters(s: State, name: string, password: string, n: Member, m: Member)
    requires Enabled(s, Grant(name, password, n)) && Homed(s)
    ensures Apply(s, Grant(name, password, n)).InRoom(m) <==> s.InRoom(m) || m == n
  {
    assert n !in s.home && n !in s.lines;
    FreeIsNotIn(s.WithRoom(name, password).rooms[name].room, n);
    GrantedPeers(s, name, password, n, name);
    if m in s.home {
      GrantedPeers(s, name, password, n, s.home[m]);
    }
    EntersOnly(s, Apply(s, Grant(name, password, n)), name, n, m);
  }

  ghost function PeersIn(s: State, k: string): map<Address, Member> {
    if k in s.rooms then s.rooms[k].room.peers else map[]
  }

  lemma EntersOnly(s: State, s': State, name: string, n: Member, m: Member)
    requires Homed(s) && n !in s.home && s'.home == s.home[n := name] && n.ip !in PeersIn(s, name)
    requires name in s'.rooms && PeersIn(s', name) == PeersIn(s, name)[n.ip := n]
    requires m in s.home ==> s.home[m] in s'.rooms
    requires m in s.home && s.home[m] != name ==> PeersIn(s', s.home[m]) == PeersIn(s, s.home[m])
    ensures s'.InRoom(m) <==> s.InRoom(m) || m == n
  {
  }

  /** What a grant leaves in a room. */
  lemma GrantedPeers(s: State, name: string, password: string, n: Member, k: string)
    requires k in s.rooms || k == name
    ensures var s' := Apply(s, Grant(name, password, n));
      && k in s'.rooms && s'.home == s.home[n := name]
      && PeersIn(s', k) == if k == name then PeersIn(s, k)[n.ip := n] else PeersIn(s, k)
  {
  }

  lemma FreeIsNotIn(r: RoomState, n: Member)
    requires r.Allocated() == Some(n.ip)
    ensures n.ip !in r.peers
  {
  }

  lemma ReleaseLeaves(s: State, conn: Conn, m: Member)
    requires RoomsInv(s)
    ensures Apply(s, Release(conn)).InRoom(m) <==> s.InRoom(m) && m.conn != conn
  {
    if m in s.home && s.home[m] in s.rooms {
      ReleasedFrom(s.rooms[s.home[m]].room, conn, m);
    }
  }

  lemma ReleasedFrom(r: RoomState, conn: Conn, m: Member)
    requires r.Inv()
    ensures (m.ip in r.Release(conn).peers && r.Release(conn).peers[m.ip] == m) <==>
      (m.ip in r.peers && r.peers[m.ip] == m && m.conn != conn)
  {
  }

  lemma OthersKeepMembers(s: State, a: Action, m: Member)
    requires Enabled(s, a) && !a.Grant? && !a.Release?
    ensures Apply(s, a).InRoom(m) <==> s.InRoom(m)
  {
  }

  /** In every run a peer is in its room from its grant on until its connection
      is released; and attaching a stream gives a new one to the peer in a room
      with that connection, and to nobody else. */
  lemma MembershipExactly(ss: seq<State>, acts: seq<Action>, i: nat, m: Member)
    requires IsRun(ss, acts) && i < |acts|
    ensures ss[i + 1].InRoom(m) <==>
      (acts[i].Grant? && acts[i].m == m) || (ss[i].InRoom(m) && acts[i] != Release(m.conn))
    ensures acts[i].Attach? && m in ss[i].lines ==> m in ss[i + 1].lines
    ensures acts[i] == Attach(m.conn) && m in ss[i].lines && ss[i].InRoom(m) ==>
      ss[i + 1].lines[m] == Line(Some([]), ss[i].lines[m].tx)
    ensures acts[i].Attach? && m in ss[i].lines && !(ss[i].InRoom(m) && m.conn == acts[i].conn) ==>
      ss[i + 1].lines[m] == ss[i].lines[m]
  {
    HubInvariant(ss, acts, i);
    assert Enabled(ss[i], acts[i]) && ss[i + 1] == Apply(ss[i], acts[i]);
    match acts[i]
    case Grant(name, password, n) => GrantEnters(ss[i], name, password, n, m);
    case Release(conn) => ReleaseLeaves(ss[i], conn, m);
    case Attach(conn) =>
      OwnsIff(ss[i], conn, m);
      OthersKeepMembers(ss[i], acts[i], m);
    case _ => OthersKeepMembers(ss[i], acts[i], m);
  }

  // ---- addressing ----

  lemma {:induction false} CountedIs(n: nat)
    ensures Counted(n) == n % 256
  {
    if n == 0 {
    } else {
      CountedIs(n - 1);
      CountedStep(n - 1);
    }
  }

  lemma CountedStep(n: nat)
    ensures (n % 256 + 1) % 256 == (n + 1) % 256
  {
  }

  /** In every run the k-th room created, the lobby being the 0-th, has the
      subnet 10.99.k.0/24, k taken modulo 256. */
  lemma SubnetsExactly(ss: seq<State>, acts: seq<Action>, i: nat, k: nat)
    requires IsRun(ss, acts) && i < |ss| && k < |ss[i].created|
    ensures |ss[i].rooms| == |ss[i].created| && ss[i].created[k] in ss[i].rooms
    ensures ss[i].rooms[ss[i].created[k]].room.base == Address(10, 99, k % 256, 0)
  {
    HubInvariant(ss, acts, i);
    assert NumberedRoom(ss[i], ss[i].created[k], k);
    CountedIs(k);
  }

  ghost predicate SubnetsDisjoint(s: State) {
    forall n1, n2, ip :: n1 in s.rooms && n2 in s.rooms && n1 != n2 ==>
      !(s.rooms[n1].room.InSubnet(ip) && s.rooms[n2].room.InSubnet(ip))
  }

  lemma CollisionPast256(s: State)
    requires Numbered(s) && |s.rooms| > SUBNETS
    ensures !SubnetsDisjoint(s)
  {
    CountedBelow256(SUBNETS);
    var n1, n2 := s.created[0], s.created[SUBNETS];
    assert NumberedRoom(s, n1, 0) && NumberedRoom(s, n2, SUBNETS);
    var ip := Subnet(0).(d := 1);
    assert s.rooms[n1].room.InSubnet(ip) && s.rooms[n2].room.InSubnet(ip);
  }

  lemma DistinctBases(s: State, n1: string, n2: string)
    requires Numbered(s) && |s.rooms| <= SUBNETS && n1 in s.rooms && n2 in s.rooms && n1 != n2
    ensures s.rooms[n1].room.base.c != s.rooms[n2].room.base.c
  {
    assert NumberedRoom(s, s.created[s.number[n1]], s.number[n1]);
    assert NumberedRoom(s, s.created[s.number[n2]], s.number[n2]);
    CountedBelow256(s.number[n1]);
    CountedBelow256(s.number[n2]);
  }

  /** Room subnets are pairwise disjoint exactly as long as no more than 256
      rooms exist, the lobby included: the 257th shares the lobby's. */
  lemma SubnetsDisjointIff(ss: seq<State>, acts: seq<Action>, i: nat)
    requires IsRun(ss, acts) && i < |ss|
    ensures SubnetsDisjoint(ss[i]) <==> |ss[i].rooms| <= SUBNETS
  {
    HubInvariant(ss, acts, i);
    DisjointIff(ss[i]);
  }

  lemma DisjointIff(s: State)
    requires Numbered(s)
    ensures SubnetsDisjoint(s) <==> |s.rooms| <= SUBNETS
  {
    if |s.rooms| > SUBNETS {
      CollisionPast256(s);
    } else {
      forall n1, n2, ip | n1 in s.rooms && n2 in s.rooms && n1 != n2
        ensures !(s.rooms[n1].room.InSubnet(ip) && s.rooms[n2].room.InSubnet(ip))
      {
        DistinctBases(s, n1, n2);
      }
    }
  }

  /** With at most 256 rooms, an address belongs to at most one peer of the hub. */
  lemma AddressesDistinct(ss: seq<State>, acts: seq<Action>, i: nat, m1: Member, m2: Member)
    requires IsRun(ss, acts) && i < |ss| && |ss[i].rooms| <= SUBNETS
    requires ss[i].InRoom(m1) && ss[i].InRoom(m2) && m1 != m2
    ensures m1.ip != m2.ip
  {
    HubInvariant(ss, acts, i);
    SubnetsDisjointIff(ss, acts, i);
    var s := ss[i];
    assert s.rooms[s.home[m1]].room.InSubnet(m1.ip);
    assert s.rooms[s.home[m2]].room.InSubnet(m2.ip);
  }

  // ---- the bound of 256 rooms is tight ----

  function RoomName(k: nat): string {
    if k == 0 then "lobby" else seq(k, _ => 'r')
  }

  /** The first peer of the `k`-th room. */
  function Founder(k: nat): Member {
    Member(k, Subnet(Counted(k)).(d := 1), k, PeerInfo("", "", ""))
  }

  /** `k` rooms exist, and the first and the last of them have their founders. */
  ghost predicate Founded(s: State, k: nat) {
    && k > 0 && |s.rooms| == k && s.nextSubnet == Counted(k)
    && (forall n :: n in s.rooms ==> n == "lobby" || |n| < k)
    && (forall m :: m in s.lines ==> m.id < k)
    && (forall n, c :: n in s.rooms && c in s.rooms[n].room.byConn ==> c < k)
    && s.InRoom(Founder(0)) && s.home[Founder(0)] == "lobby"
    && s.InRoom(Founder(k - 1))
  }

  lemma FirstAddress(r: RoomState)
    requires r.peers == map[] && r.nextIP == 1
    ensures r.Allocated() == Some(r.base.(d := 1))
  {
    SkippedIs(r, 0);
  }

  lemma GrantInLobby(s: State, m: Member)
    requires s.rooms == map["lobby" := RoomRec(EmptyRoom(Subnet(0)), false, "")] && s.lines == map[] && s.home == map[]
    ensures var r, s' := EmptyRoom(Subnet(0)).AfterAllocate().Insert(m), Apply(s, Grant("lobby", "", m));
      && s'.rooms == map["lobby" := RoomRec(r, false, "")] && s'.nextSubnet == s.nextSubnet
      && s'.lines == map[m := Line(None, 0)] && s'.home == map[m := "lobby"]
      && r.peers == map[m.ip := m] && r.byConn == map[m.conn := m]
  {
  }

  lemma FoundFirst(s: State)
    requires s == Init()
    ensures Enabled(s, Grant("lobby", "", Founder(0))) && Founded(Apply(s, Grant("lobby", "", Founder(0))), 1)
  {
    assert s.rooms == map["lobby" := RoomRec(EmptyRoom(Subnet(0)), false, "")];
    FirstAddress(s.rooms["lobby"].room);
    GrantInLobby(s, Founder(0));
  }

  lemma NameIsNew(s: State, k: nat)
    requires Founded(s, k)
    ensures RoomName(k) !in s.rooms
  {
    assert RoomName(k)[0] != "lobby"[0];
  }

  lemma FoundNext(s: State, k: nat)
    requires Founded(s, k)
    ensures Enabled(s, Grant(RoomName(k), "", Founder(k)))
    ensures Founded(Apply(s, Grant(RoomName(k), "", Founder(k))), k + 1)
  {
    NameIsNew(s, k);
    FirstAddress(EmptyRoom(Subnet(s.nextSubnet)));
    GrantInNewRoom(s, RoomName(k), Founder(k));
    FoundedGrows(s, k, Apply(s, Grant(RoomName(k), "", Founder(k))));
  }

  lemma GrantInNewRoom(s: State, name: string, m: Member)
    requires name !in s.rooms
    ensures var r, s' := EmptyRoom(Subnet(s.nextSubnet)).AfterAllocate().Insert(m), Apply(s, Grant(name, "", m));
      && s'.rooms == s.rooms[name := RoomRec(r, false, "")] && s'.nextSubnet == Increment(s.nextSubnet)
      && s'.lines == s.lines[m := Line(None, 0)] && s'.home == s.home[m := name]
      && r.peers == map[m.ip := m] && r.byConn == map[m.conn := m]
  {
  }

  lemma FoundedGrows(s: State, k: nat, s': State)
    requires Founded(s, k) && RoomName(k) !in s.rooms && RoomName(k) in s'.rooms
    requires s'.rooms == s.rooms[RoomName(k) := s'.rooms[RoomName(k)]] && s'.nextSubnet == Increment(s.nextSubnet)
    requires s'.lines == s.lines[Founder(k) := Line(None, 0)] && s'.home == s.home[Founder(k) := RoomName(k)]
    requires s'.rooms[RoomName(k)].room.peers == map[Founder(k).ip := Founder(k)]
    requires s'.rooms[RoomName(k)].room.byConn == map[k := Founder(k)]
    ensures Founded(s', k + 1)
  {
    assert |s'.rooms| == k + 1;
  }

  lemma {:induction false} FoundRun(k: nat) returns (ss: seq<State>, acts: seq<Action>)
    requires k > 0
    ensures IsRun(ss, acts) && |acts| == k && Founded(ss[k], k)
  {
    var a;
    if k == 1 {
      ss, acts := [Init()], [];
      FoundFirst(Init());
      a := Grant("lobby", "", Founder(0));
    } else {
      ss, acts := FoundRun(k - 1);
      FoundNext(ss[k - 1], k - 1);
      a := Grant(RoomName(k - 1), "", Founder(k - 1));
    }
    Runs.Extend(Init(), Enabled, Apply, ss, acts, a);
    ss, acts := ss + [Apply(ss[k - 1], a)], acts + [a];
  }

  /** There is a run with 257 rooms in which two peers have the same address. */
  lemma SubnetsTight() returns (ss: seq<State>, acts: seq<Action>, m1: Member, m2: Member)
    ensures IsRun(ss, acts) && |acts| == SUBNETS + 1 && |ss[|acts|].rooms| == SUBNETS + 1
    ensures ss[|acts|].InRoom(m1) && ss[|acts|].InRoom(m2) && m1 != m2 && m1.ip == m2.ip
    ensures !SubnetsDisjoint(ss[|acts|])
  {
    ss, acts := FoundRun(SUBNETS + 1);
    m1, m2 := Founder(0), Founder(SUBNETS);
    CountedBelow256(0);
    CountedBelow256(SUBNETS);
    SubnetsDisjointIff(ss, acts, SUBNETS + 1);
  }

  // ---- forwarding ----

  /** The simple specification: a routed packet is for `m`. */
  ghost predicate Assigned(s: State, from: Member, pkt: Packet, m: Member) {
    && s.InRoom(m) && m in s.lines && s.lines[m].stream.Some?
    && from in s.home && s.home[from] == s.home[m]
    && IsFor(pkt, from, m)
  }

  /** The code's broadcast and unicast branches write to exactly the peers the
      simple specification names. */
  lemma RouteReaches(s: State, from: Member, pkt: Packet, m: Member)
    requires Homed(s) && from in s.home && m in s.lines && s.rooms[s.home[from]].room.Inv()
    ensures s.lines[m].stream.Some? && m in Recipients(s.rooms[s.home[from]].room, pkt, from) <==> Assigned(s, from, pkt, m)
  {
    var room := s.rooms[s.home[from]].room;
    RecipientsAre(room, pkt, from, m);
    assert m.ip in room.peers && room.peers[m.ip] == m <==> s.InRoom(m) && s.home[m] == s.home[from];
  }

  lemma RecipientsAre(room: RoomState, pkt: Packet, from: Member, m: Member)
    requires room.Inv()
    ensures m in Recipients(room, pkt, from) <==> m.ip in room.peers && room.peers[m.ip] == m && IsFor(pkt, from, m)
  {
    assert forall a :: a in room.peers ==> room.peers[a].ip == a && IsHost(a.d);
    assert m in room.peers.Values <==> m.ip in room.peers && room.peers[m.ip] == m;
  }

  /** A packet never leaves its sender's room, however many rooms there are. */
  lemma RoomIsolation(ss: seq<State>, acts: seq<Action>, i: nat, m: Member)
    requires IsRun(ss, acts) && i < |acts| && acts[i].Route?
    requires m in ss[i].lines && acts[i].from in ss[i].home && m in ss[i].home
    ensures m in ss[i + 1].lines
    ensures ss[i].home[m] != ss[i].home[acts[i].from] || m == acts[i].from ==> ss[i + 1].lines[m] == ss[i].lines[m]
  {
    HubInvariant(ss, acts, i);
    assert Enabled(ss[i], acts[i]) && ss[i + 1] == Apply(ss[i], acts[i]);
    RouteReaches(ss[i], acts[i].from, acts[i].pkt, m);
  }

  /** What the first `n` steps of a run give to `m` on its current stream. */
  ghost function Given(ss: seq<State>, acts: seq<Action>, m: Member, n: nat): seq<Packet>
    requires n <= |acts| < |ss|
  {
    if n == 0 then []
    else
      var before := Given(ss, acts, m, n - 1);
      match acts[n - 1]
      case Attach(conn) => if m in ss[n - 1].lines && ss[n - 1].Owns(conn, m) then [] else before
      case Route(from, pkt) => if Assigned(ss[n - 1], from, pkt, m) then before + [pkt] else before
      case _ => before
  }

  /** How many packets the first `n` steps give to `m` on all its streams. */
  ghost function Total(ss: seq<State>, acts: seq<Action>, m: Member, n: nat): nat
    requires n <= |acts| < |ss|
  {
    if n == 0 then 0
    else
      var now := acts[n - 1].Route? && Assigned(ss[n - 1], acts[n - 1].from, acts[n - 1].pkt, m);
      Total(ss, acts, m, n - 1) + if now then 1 else 0
  }

  /** How often the first `n` steps attach a stream to `m`. */
  ghost function Attaches(ss: seq<State>, acts: seq<Action>, m: Member, n: nat): nat
    requires n <= |acts| < |ss|
  {
    if n == 0 then 0
    else
      var now := acts[n - 1].Attach? && m in ss[n - 1].lines && ss[n - 1].Owns(acts[n - 1].conn, m);
      Attaches(ss, acts, m, n - 1) + if now then 1 else 0
  }

  ghost predicate LineInv(ss: seq<State>, acts: seq<Action>, m: Member, n: nat)
    requires n <= |acts| < |ss|
  {
    var given := Given(ss, acts, m, n);
    && AllOk(Packets.Fits, given)
    && (m in ss[n].lines ==>
          && ss[n].lines[m].tx == Total(ss, acts, m, n)
          && (ss[n].lines[m].stream.Some? <==> Attaches(ss, acts, m, n) > 0)
          && (ss[n].lines[m].stream.Some? ==> ss[n].lines[m].stream.value == EncodeAll(EncodePacket, given)))
    && (m !in ss[n].lines || ss[n].lines[m].stream == None ==>
          given == [] && Total(ss, acts, m, n) == 0 && Attaches(ss, acts, m, n) == 0)
    && (Attaches(ss, acts, m, n) <= 1 ==> Total(ss, acts, m, n) == |given|)
  }

  /** What one step makes of the line of `m`. */
  ghost function NextLine(s: State, a: Action, m: Member): Line
    requires m in s.lines
  {
    if a.Attach? && s.Owns(a.conn, m) then Line(Some([]), s.lines[m].tx)
    else if a.Route? && Assigned(s, a.from, a.pkt, m) then Line(Some(s.lines[m].stream.value + EncodePacket(a.pkt)), s.lines[m].tx + 1)
    else s.lines[m]
  }

  lemma StepOfLine(s: State, a: Action, m: Member)
    requires Enabled(s, a) && m in s.lines
    requires Homed(s) && (a.Route? ==> s.rooms[s.home[a.from]].room.Inv())
    ensures m in Apply(s, a).lines && Apply(s, a).lines[m] == NextLine(s, a, m)
  {
    if a.Route? {
      RouteReaches(s, a.from, a.pkt, m);
      assert Apply(s, a).lines[m] == AfterRoute(s, a.from, a.pkt, m);
    }
  }

  lemma StepNewLine(s: State, a: Action, m: Member)
    requires Enabled(s, a) && m !in s.lines
    ensures m in Apply(s, a).lines ==> Apply(s, a).lines[m] == Line(None, 0)
  {
  }

  lemma StepLine(ss: seq<State>, acts: seq<Action>, m: Member, n: nat)
    requires n < |acts| < |ss| && LineInv(ss, acts, m, n)
    requires if m in ss[n].lines
      then m in ss[n + 1].lines && ss[n + 1].lines[m] == NextLine(ss[n], acts[n], m)
      else m in ss[n + 1].lines ==> ss[n + 1].lines[m] == Line(None, 0)
    requires acts[n].Route? ==> Packets.Fits(acts[n].pkt)
    ensures LineInv(ss, acts, m, n + 1)
  {
    if acts[n].Route? {
      EncodeAllSnoc(EncodePacket, Given(ss, acts, m, n), acts[n].pkt);
    }
  }

  lemma {:induction false} LineAlways(ss: seq<State>, acts: seq<Action>, m: Member, n: nat)
    requires IsRun(ss, acts) && n <= |acts|
    ensures LineInv(ss, acts, m, n)
  {
    if n == 0 {
      assert m !in ss[0].lines;
    } else {
      LineAlways(ss, acts, m, n - 1);
      LineMoves(ss, acts, m, n - 1);
      StepLine(ss, acts, m, n - 1);
    }
  }

  lemma LineMoves(ss: seq<State>, acts: seq<Action>, m: Member, n: nat)
    requires IsRun(ss, acts) && n < |acts|
    ensures if m in ss[n].lines
      then m in ss[n + 1].lines && ss[n + 1].lines[m] == NextLine(ss[n], acts[n], m)
      else m in ss[n + 1].lines ==> ss[n + 1].lines[m] == Line(None, 0)
    ensures acts[n].Route? ==> Packets.Fits(acts[n].pkt)
  {
    HubInvariant(ss, acts, n);
    var s, a := ss[n], acts[n];
    assert Enabled(s, a) && ss[n + 1] == Apply(s, a);
    if m in s.lines {
      StepOfLine(s, a, m);
    } else {
      StepNewLine(s, a, m);
    }
  }

  /** At every moment of every run, a peer's packet stream decodes to exactly
      the packets that were for it since the stream was attached, in order, and
      txPackets counts them - all of them, if the stream was attached once. */
  lemma ForwardingExact(ss: seq<State>, acts: seq<Action>, m: Member, n: nat)
    requires IsRun(ss, acts) && n <= |acts|
    requires m in ss[n].lines && ss[n].lines[m].stream.Some?
    ensures DecodeAll(ParsePacket, ss[n].lines[m].stream.value) == (Given(ss, acts, m, n), Eof)
    ensures ss[n].lines[m].tx == Total(ss, acts, m, n)
    ensures Attaches(ss, acts, m, n) == 1 ==> ss[n].lines[m].tx == |Given(ss, acts, m, n)|
  {
    LineAlways(ss, acts, m, n);
    PacketsUniquelyDecodable(Given(ss, acts, m, n), 0);
  }

  // ---- the hub as the program keeps it ----

  /** Releasing a connection in the one room that has it, if any, is releasing
      it everywhere. */
  lemma ReleaseAt(s: State, at: Option<string>, conn: Conn)
    requires OneGrant(s)
    requires at == None ==> forall n :: n in s.rooms ==> conn !in s.rooms[n].room.byConn
    requires at.Some? ==> at.value in s.rooms && conn in s.rooms[at.value].room.byConn
    ensures Apply(s, Release(conn)).rooms.Keys == s.rooms.Keys && Apply(s, Release(conn)).nextSubnet == s.nextSubnet
    ensures forall n :: n in s.rooms ==>
      Apply(s, Release(conn)).rooms[n] ==
        s.rooms[n].(room := if at == Some(n) then s.rooms[n].room.Release(conn) else s.rooms[n].room)
  {
    assert forall n :: n in s.rooms && at != Some(n) ==> conn !in s.rooms[n].room.byConn;
  }

  class VpnHub {
    var rooms: map<string, Room>
    var nextSubnet: Byte

    ghost predicate Valid()
      reads this, rooms.Values
    {
      && (forall n :: n in rooms ==> rooms[n].name == n && rooms[n].Valid())
    }

    /** The rooms are those of state `s` of the machine above. */
    ghost predicate Shows(s: State)
      reads this, rooms.Values
    {
      && rooms.Keys == s.rooms.Keys && nextSubnet == s.nextSubnet
      && (forall n :: n in rooms ==> rooms[n].View() == s.rooms[n].room)
      && (forall n :: n in rooms ==> rooms[n].private == s.rooms[n].private && rooms[n].password == s.rooms[n].password)
    }

    constructor ()
      ensures Valid() && Shows(Init())
    {
      rooms, nextSubnet := map[], 0;
      new;
      var lobby := EnsureRoom("lobby", "", false, State(map[], 0, [], map[], map[], map[]));
    }

    method AllocSubnet() returns (base: Address)
      modifies this`nextSubnet
      ensures base == Subnet(old(nextSubnet)) == Address(10, 99, old(nextSubnet), 0)
      ensures nextSubnet == Increment(old(nextSubnet)) == (old(nextSubnet) + 1) % 256
    {
      base := Subnet(nextSubnet);
      nextSubnet := Increment(nextSubnet);
    }

    /** The first one in creates the room; a private room asks for its password. */
    method EnsureRoom(name: string, password: string, private: bool, ghost s: State) returns (r: Option<Room>)
      requires Valid() && Shows(s)
      modifies this
      ensures Valid()
      ensures r.Some? <==> s.Admits(name, password)
      ensures r.Some? ==> name in rooms && rooms[name] == r.value
      ensures r.Some? && (private <==> password != "") ==> Shows(s.WithRoom(name, password))
      ensures r == None ==> Shows(s)
      ensures name in old(rooms) ==>
        && rooms == old(rooms) && nextSubnet == old(nextSubnet)
        && r == if old(rooms)[name].private && old(rooms)[name].password != password then None else Some(old(rooms)[name])
      ensures name !in old(rooms) ==>
        && r.Some? && fresh(r.value) && rooms == old(rooms)[name := r.value] && nextSubnet == Increment(old(nextSubnet))
        && r.value.View() == EmptyRoom(Subnet(old(nextSubnet)))
        && r.value.private == private && r.value.password == password
    {
      if name in rooms {
        if rooms[name].private && rooms[name].password != password {
          return None;
        }
        return Some(rooms[name]);
      }
      var subnet := AllocSubnet();
      var room := new Room(name, subnet, private, password);
      AddRoom(room, s.(nextSubnet := Increment(s.nextSubnet)));
      r := Some(room);
    }

    method AddRoom(room: Room, ghost s: State)
      requires Valid() && Shows(s) && room.Valid() && room.name !in rooms
      modifies this`rooms
      ensures Valid() && rooms == old(rooms)[room.name := room]
      ensures Shows(s.(rooms := s.rooms[room.name := RoomRec(room.View(), room.private, room.password)]))
    {
      rooms := rooms[room.name := room];
    }

    /** Release a connection from one room; the other rooms are other objects. */
    method ReleaseIn(name: string, conn: Conn) returns (found: bool)
      requires Valid() && name in rooms
      modifies rooms.Values
      ensures Valid()
      ensures found <==> conn in old(rooms[name].View()).byConn
      ensures rooms[name].View() == old(rooms[name].View()).Release(conn)
      ensures forall n :: n in rooms && n != name ==> rooms[n].View() == old(rooms[n].View())
    {
      assert forall n :: n in rooms && n != name ==> rooms[n] != rooms[name];
      var p := rooms[name].ReleasePeer(conn);
      found := p.Some?;
    }

    /** Search all rooms, and stop at the first that has the connection. If no
        other has it, it is then released everywhere. */
    method ReleaseFirst(conn: Conn) returns (ghost at: Option<string>)
      requires Valid()
      modifies rooms.Values
      ensures Valid()
      ensures at == None ==> forall n :: n in rooms ==> conn !in old(rooms[n].View()).byConn
      ensures at.Some? ==> at.value in rooms && conn in old(rooms[at.value].View()).byConn
      ensures forall n :: n in rooms ==>
        rooms[n].View() == if at == Some(n) then old(rooms[n].View()).Release(conn) else old(rooms[n].View())
      ensures (forall n :: n in rooms && at != Some(n) ==> conn !in old(rooms[n].View()).byConn) ==>
        forall n :: n in rooms ==> rooms[n].View() == old(rooms[n].View()).Release(conn)
    {
      var left := rooms.Keys;
      at := None;
      while left != {}
        invariant left <= rooms.Keys && Valid() && at == None
        invariant forall n :: n in rooms ==> rooms[n].View() == old(rooms[n].View())
        invariant forall n :: n in rooms && n !in left ==> conn !in old(rooms[n].View()).byConn
        decreases left
      {
        var n :| n in left;
        var found := ReleaseIn(n, conn);
        if found {
          return Some(n);
        }
        left := left - {n};
      }
    }

    /** As long as no connection has two grants, that is the machine's step. */
    method ReleasePeer(conn: Conn, ghost s: State) returns (ghost at: Option<string>)
      requires Valid() && Shows(s)
      modifies rooms.Values
      ensures Valid()
      ensures forall n :: n in rooms ==>
        rooms[n].View() == if at == Some(n) then old(rooms[n].View()).Release(conn) else old(rooms[n].View())
      ensures at == None ==> forall n :: n in rooms ==> conn !in old(rooms[n].View()).byConn
      ensures at.Some? ==> at.value in rooms && conn in old(rooms[at.value].View()).byConn
      ensures OneGrant(s) ==> Shows(Apply(s, Release(conn)))
    {
      at := ReleaseFirst(conn);
      if OneGrant(s) {
        ReleaseAt(s, at, conn);
      }
    }
  }
}
