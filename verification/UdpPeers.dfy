// internal/server/udp.go and closePublic of internal/server/tunnel.go: the
// table of public UDP peers of one tunnel, stepped through by the receive
// loop, one return pump per peer, and the close of the tunnel.
module UdpPeers {
  import opened Bytes
  import Runs

  /** A public address, as its string's bytes. */
  type Key = seq<Byte>

  /** Progress of a peer's closeOnce, whoever runs it. */
  datatype Once =
    | Fresh
    | Deleting    // entered, table lock not yet taken
    | Closing     // entry deleted if it was this peer's, stream still to be closed
    | Done

  datatype Pump = Running | Stopping | Exited

  /** `late` is history: the peer was admitted after the table's teardown. */
  datatype Peer = Peer(key: Key, once: Once, closed: bool, pump: Pump, late: bool)
  {
    predicate Evicted() {
      once.Closing? || once.Done?
    }
  }

  /** The receive loop. */
  datatype Receiver =
    | Idle
    | Got(key: Key)        // a datagram was received, table lock not yet taken
    | Writing(p: nat)      // lock dropped, forwarding to the peer's stream
    | Evicting(p: nat)     // the write failed
    | Ended

  datatype State = State(
    table: map<Key, nat>,
    peers: map<nat, Peer>,     // every peer whose stream was ever opened
    group: int,                // the wait group's counter
    recv: Receiver,
    listening: bool,
    torn: bool)                // closePublic has been through the table
  {
    predicate Current(p: nat) {
      p in peers && peers[p].key in table && table[peers[p].key] == p
    }

    predicate OnceIs(p: nat, o: Once) {
      p in peers && peers[p].once == o
    }

    predicate PumpIs(p: nat, x: Pump) {
      p in peers && peers[p].pump == x
    }

    function Set(p: nat, x: Peer): State {
      this.(peers := peers[p := x])
    }

    /** The pumps that have not exited. */
    function Pumps(): set<nat> {
      set p | p in peers && peers[p].pump != Exited
    }
  }

  datatype Action =
    | Receive(key: Key)
    | ReceiveFails
    | OpenFails
    | HeaderFails(p: nat)      // stream opened, tunnel id or HELLO not written
    | Known                    // the peer is in the table
    | Admit(p: nat)            // or it is new
    | WriteOk
    | WriteFails
    | PumpStops(p: nat)        // read error, GOODBYE, or write to the public side failed
    | BeginEvict(p: nat)
    | DeleteEntry(p: nat)
    | CloseStream(p: nat)
    | ReceiverGoesOn
    | PumpExits(p: nat)
    | CloseListener
    | TearDown

  function Init(): State {
    State(map[], map[], 0, Idle, true, false)
  }

  predicate Enabled(s: State, a: Action) {
    match a
    case Receive(_) => s.recv.Idle? && s.listening
    case ReceiveFails => s.recv.Idle?
    case OpenFails => s.recv.Got? && s.recv.key !in s.table
    case HeaderFails(p) => s.recv.Got? && s.recv.key !in s.table && p !in s.peers
    case Known => s.recv.Got? && s.recv.key in s.table
    case Admit(p) => s.recv.Got? && s.recv.key !in s.table && p !in s.peers
    case WriteOk => s.recv.Writing?
    case WriteFails => s.recv.Writing?
    case PumpStops(p) => s.PumpIs(p, Running)
    case BeginEvict(p) => s.OnceIs(p, Fresh) && (s.recv == Evicting(p) || s.PumpIs(p, Stopping))
    case DeleteEntry(p) => s.OnceIs(p, Deleting)
    case CloseStream(p) => s.OnceIs(p, Closing)
    case ReceiverGoesOn => s.recv.Evicting? && s.OnceIs(s.recv.p, Done)
    case PumpExits(p) => s.PumpIs(p, Stopping) && s.OnceIs(p, Done)
    case CloseListener => s.listening
    case TearDown => !s.listening && !s.torn
  }

  function Apply(s: State, a: Action): State {
    match a
    case Receive(key) => s.(recv := Got(key))
    case ReceiveFails => s.(recv := Ended)
    case OpenFails => s.(recv := Idle)
    case HeaderFails(p) =>
      if s.recv.Got? then s.Set(p, Peer(s.recv.key, Done, true, Exited, s.torn)).(recv := Idle) else s
    case Known =>
      if s.recv.Got? && s.recv.key in s.table then s.(recv := Writing(s.table[s.recv.key])) else s
    case Admit(p) =>
      if s.recv.Got?
      then s.Set(p, Peer(s.recv.key, Fresh, false, Running, s.torn)).(table := s.table[s.recv.key := p], group := s.group + 1, recv := Writing(p))
      else s
    case WriteOk => s.(recv := Idle)
    case WriteFails => if s.recv.Writing? then s.(recv := Evicting(s.recv.p)) else s
    case PumpStops(p) => if p in s.peers then s.Set(p, s.peers[p].(pump := Stopping)) else s
    case BeginEvict(p) => if p in s.peers then s.Set(p, s.peers[p].(once := Deleting)) else s
    case DeleteEntry(p) =>
      if p in s.peers
      then s.Set(p, s.peers[p].(once := Closing)).(table := if s.Current(p) then s.table - {s.peers[p].key} else s.table)
      else s
    case CloseStream(p) => if p in s.peers then s.Set(p, s.peers[p].(once := Done, closed := true)) else s
    case ReceiverGoesOn => s.(recv := Idle)
    case PumpExits(p) => if p in s.peers then s.Set(p, s.peers[p].(pump := Exited)).(group := s.group - 1) else s
    case CloseListener => s.(listening := false)
    case TearDown =>
      s.(table := map[], torn := true,
         peers := map p | p in s.peers :: if s.Current(p) then s.peers[p].(closed := true) else s.peers[p])
  }

  // ---- invariant ----

  /** An entry leads to an open stream of a peer with that address. */
  ghost predicate EntryOk(s: State, k: Key)
    requires k in s.table
  {
    && s.table[k] in s.peers && s.peers[s.table[k]].key == k && !s.peers[s.table[k]].closed
    && (s.peers[s.table[k]].once == Fresh || s.peers[s.table[k]].once == Deleting)
  }

  ghost predicate TableInv(s: State) {
    && (forall k :: k in s.table ==> EntryOk(s, k))
    && (s.recv.Writing? || s.recv.Evicting? ==> s.recv.p in s.peers)
  }

  /** A stream is a current entry, or closed, or about to be closed by an
      eviction that is under way. */
  ghost predicate StreamOk(s: State, p: nat)
    requires p in s.peers
  {
    && (s.Current(p) || s.peers[p].closed || s.peers[p].once == Closing)
    && (s.peers[p].once == Done ==> s.peers[p].closed && !s.Current(p))
    && (s.peers[p].pump == Exited ==> s.peers[p].once == Done)
  }

  /** Who is in the table: before the teardown whoever has not been evicted,
      afterwards whoever was admitted since and has not been evicted. */
  ghost predicate EntryIff(s: State, p: nat)
    requires p in s.peers
  {
    && (s.Current(p) <==> !s.peers[p].Evicted() && (s.torn ==> s.peers[p].late))
    && (s.peers[p].late ==> s.torn)
  }

  ghost predicate Entries(s: State) {
    forall p :: p in s.peers ==> EntryIff(s, p)
  }

  ghost predicate NoStreamLost(s: State) {
    forall p :: p in s.peers ==> StreamOk(s, p)
  }

  ghost predicate Counted(s: State) {
    s.group == |s.Pumps()|
  }

  /** At most one entry outlives the close: that of a datagram received before. */
  ghost predicate OneStraggler(s: State) {
    s.torn ==> !s.listening && |s.table| + (if s.recv.Got? then 1 else 0) <= 1
  }

  ghost predicate Inv(s: State) {
    TableInv(s) && NoStreamLost(s) && Entries(s) && Counted(s) && OneStraggler(s)
  }

  lemma StepEntry(s: State, a: Action, k: Key)
    requires Enabled(s, a) && k in Apply(s, a).table
    requires k in s.table ==> EntryOk(s, k)
    ensures EntryOk(Apply(s, a), k)
  {
  }

  lemma StepTable(s: State, a: Action)
    requires TableInv(s) && Enabled(s, a)
    ensures TableInv(Apply(s, a))
  {
    forall k | k in Apply(s, a).table ensures EntryOk(Apply(s, a), k) {
      StepEntry(s, a, k);
    }
    assert s.recv.Got? && s.recv.key in s.table ==> EntryOk(s, s.recv.key);
  }

  lemma OthersStay(s: State, a: Action, p: nat)
    requires TableInv(s) && Enabled(s, a) && p in s.peers && !a.TearDown?
    ensures p in Apply(s, a).peers && Apply(s, a).peers[p].key == s.peers[p].key
    ensures Apply(s, a).Current(p) <==> s.Current(p) && a != DeleteEntry(p)
  {
  }

  lemma StepStream(s: State, a: Action, p: nat)
    requires TableInv(s) && Enabled(s, a) && p in Apply(s, a).peers
    requires p in s.peers ==> StreamOk(s, p)
    ensures StreamOk(Apply(s, a), p)
  {
    assert p in s.peers && s.Current(p) ==> EntryOk(s, s.peers[p].key);
    if p in s.peers && !a.TearDown? {
      OthersStay(s, a, p);
      SteppedStream(s, a, p, Apply(s, a));
    }
  }

  lemma SteppedStream(s: State, a: Action, p: nat, next: State)
    requires Enabled(s, a) && next == Apply(s, a) && !a.TearDown?
    requires p in s.peers && StreamOk(s, p) && p in next.peers
    requires next.Current(p) <==> s.Current(p) && a != DeleteEntry(p)
    requires s.Current(p) ==> EntryOk(s, s.peers[p].key)
    ensures StreamOk(next, p)
  {
  }

  lemma StepEntryIff(s: State, a: Action, p: nat)
    requires TableInv(s) && Enabled(s, a) && p in Apply(s, a).peers
    requires p in s.peers ==> EntryIff(s, p)
    ensures EntryIff(Apply(s, a), p)
  {
    if p in s.peers && !a.TearDown? {
      OthersStay(s, a, p);
      SteppedEntry(s, a, p, Apply(s, a));
    }
  }

  lemma SteppedEntry(s: State, a: Action, p: nat, next: State)
    requires Enabled(s, a) && next == Apply(s, a) && !a.TearDown?
    requires p in s.peers && EntryIff(s, p) && p in next.peers
    requires next.Current(p) <==> s.Current(p) && a != DeleteEntry(p)
    ensures EntryIff(next, p)
  {
  }

  lemma StepEntries(s: State, a: Action)
    requires TableInv(s) && Entries(s) && Enabled(s, a)
    ensures Entries(Apply(s, a))
  {
    forall p | p in Apply(s, a).peers ensures EntryIff(Apply(s, a), p) {
      StepEntryIff(s, a, p);
    }
  }

  lemma StepNoStreamLost(s: State, a: Action)
    requires TableInv(s) && NoStreamLost(s) && Enabled(s, a)
    ensures NoStreamLost(Apply(s, a))
  {
    forall p | p in Apply(s, a).peers ensures StreamOk(Apply(s, a), p) {
      StepStream(s, a, p);
    }
  }

  lemma StepPumps(s: State, a: Action)
    requires Enabled(s, a)
    ensures a.Admit? ==> a.p !in s.Pumps() && Apply(s, a).Pumps() == s.Pumps() + {a.p}
    ensures a.PumpExits? ==> a.p in s.Pumps() && Apply(s, a).Pumps() == s.Pumps() - {a.p}
    ensures !a.Admit? && !a.PumpExits? ==> Apply(s, a).Pumps() == s.Pumps()
  {
  }

  lemma StepCounted(s: State, a: Action)
    requires Counted(s) && Enabled(s, a)
    ensures Counted(Apply(s, a))
  {
    StepPumps(s, a);
    assert a.Admit? ==> Apply(s, a).group == s.group + 1;
    assert a.PumpExits? ==> Apply(s, a).group == s.group - 1;
    assert !a.Admit? && !a.PumpExits? ==> Apply(s, a).group == s.group;
  }

  lemma StepOneStraggler(s: State, a: Action)
    requires OneStraggler(s) && Enabled(s, a)
    ensures OneStraggler(Apply(s, a))
  {
    if a.DeleteEntry? && s.Current(a.p) {
      var k := s.peers[a.p].key;
      assert Apply(s, a).table.Keys == s.table.Keys - {k};
      assert |s.table - {k}| == |(s.table - {k}).Keys| && |s.table| == |s.table.Keys|;
    }
  }

  lemma InvAlways(ss: seq<State>, acts: seq<Action>, i: nat)
    requires Runs.IsRun(Init(), Enabled, Apply, ss, acts) && i < |ss|
    ensures Inv(ss[i])
  {
    forall s, a | Inv(s) && Enabled(s, a) ensures Inv(Apply(s, a)) {
      StepTable(s, a);
      StepNoStreamLost(s, a);
      StepEntries(s, a);
      StepCounted(s, a);
      StepOneStraggler(s, a);
    }
    Runs.Always(Init(), Enabled, Apply, Inv, ss, acts, i);
  }

  /** In every interleaving: a stream ever opened is a current entry or closed,
      once the evicting step that removed it is over; no two entries share a
      peer, and an entry is its peer's own address; the wait group counts the
      pumps that have not exited. The table holds exactly the peers not yet
      evicted, and after the teardown exactly those admitted since and not yet
      evicted: at most one, for a datagram that had been received before. */
  lemma TableConservation(ss: seq<State>, acts: seq<Action>, i: nat)
    requires Runs.IsRun(Init(), Enabled, Apply, ss, acts) && i < |ss|
    ensures forall p :: p in ss[i].peers && ss[i].peers[p].once != Closing ==> ss[i].Current(p) || ss[i].peers[p].closed
    ensures forall p :: p in ss[i].peers && ss[i].peers[p].once == Done ==> !ss[i].Current(p) && ss[i].peers[p].closed
    ensures forall k :: k in ss[i].table ==> ss[i].Current(ss[i].table[k]) && ss[i].peers[ss[i].table[k]].key == k
    ensures ss[i].group == |ss[i].Pumps()|
    ensures forall p :: p in ss[i].peers && ss[i].peers[p].pump == Exited ==> ss[i].peers[p].once == Done
    ensures forall p :: p in ss[i].peers ==>
      (ss[i].Current(p) <==> !ss[i].peers[p].Evicted() && (ss[i].torn ==> ss[i].peers[p].late))
    ensures ss[i].torn ==> |ss[i].table| <= 1
  {
    InvAlways(ss, acts, i);
    assert forall p :: p in ss[i].peers ==> StreamOk(ss[i], p) && EntryIff(ss[i], p);
    assert forall k :: k in ss[i].table ==> EntryOk(ss[i], k);
  }

  /** There can be one: a datagram received before the close is admitted after it. */
  lemma Straggler() returns (ss: seq<State>, acts: seq<Action>)
    ensures Runs.IsRun(Init(), Enabled, Apply, ss, acts)
    ensures acts == [Receive([97]), CloseListener, TearDown, Admit(0)]
    ensures ss[4].torn && ss[4].table == map[[97] := 0] && 0 in ss[4].peers && !ss[4].peers[0].closed
  {
    ss, acts := [Init()], [];
    ss, acts := Runs.Then(Init(), Enabled, Apply, ss, acts, Receive([97]));
    ss, acts := Runs.Then(Init(), Enabled, Apply, ss, acts, CloseListener);
    ss, acts := Runs.Then(Init(), Enabled, Apply, ss, acts, TearDown);
    ss, acts := Runs.Then(Init(), Enabled, Apply, ss, acts, Admit(0));
  }

  /** An entry leaves the table only by the eviction of that very peer, or when
      the tunnel is closed: a stale peer never removes its replacement. */
  lemma EvictsOnlyItself(ss: seq<State>, acts: seq<Action>, i: nat, k: Key)
    requires Runs.IsRun(Init(), Enabled, Apply, ss, acts) && i < |acts| && k in ss[i].table
    ensures acts[i] != TearDown && acts[i] != DeleteEntry(ss[i].table[k]) ==>
      k in ss[i + 1].table && ss[i + 1].table[k] == ss[i].table[k]
  {
    InvAlways(ss, acts, i);
    assert EntryOk(ss[i], k);
    assert Enabled(ss[i], acts[i]) && ss[i + 1] == Apply(ss[i], acts[i]);
  }

  // ---- the table as the program keeps it ----

  class UdpPeer {
    const id: nat         // stands for the pointer
    const key: Key
    var evicted: bool     // closeOnce
    var open: bool        // the stream

    constructor (id: nat, key: Key)
      ensures this.id == id && this.key == key && !evicted && open
    {
      this.id, this.key := id, key;
      evicted, open := false, true;
    }
  }

  /** evictUDP as one step. */
  function Evicted(s: State, p: nat): State {
    Apply(Apply(Apply(s, BeginEvict(p)), DeleteEntry(p)), CloseStream(p))
  }

  lemma EvictedIs(s: State, p: nat)
    requires p in s.peers
    ensures Evicted(s, p) == s.(
      table := if s.Current(p) then s.table - {s.peers[p].key} else s.table,
      peers := s.peers[p := s.peers[p].(once := Done, closed := true)])
  {
  }

  class UdpTable {
    var udpPeers: map<Key, UdpPeer>
    var group: int
    ghost var all: map<nat, UdpPeer>     // every peer ever admitted

    ghost predicate Valid()
      reads this
    {
      && (forall k :: k in udpPeers ==> udpPeers[k].key == k && udpPeers[k].id in all && all[udpPeers[k].id] == udpPeers[k])
      && (forall p :: p in all ==> all[p].id == p)
    }

    /** The table is in state `s` of the machine above, with no eviction under way. */
    ghost predicate Shows(s: State)
      reads this, all.Values
    {
      && udpPeers.Keys == s.table.Keys && (forall k :: k in udpPeers ==> udpPeers[k].id == s.table[k])
      && all.Keys == s.peers.Keys && (forall p :: p in all ==> PeerShows(all[p], s.peers[p]))
      && group == s.group
    }

    constructor ()
      ensures Valid() && Shows(Init())
    {
      udpPeers, group, all := map[], 0, map[];
    }

    /** The receive loop's critical section. `opens` tells whether a new stream
        can be opened and its tunnel id and HELLO written. */
    method PeerFor(key: Key, opens: bool, id: nat, ghost s: State) returns (p: Option<UdpPeer>)
      requires Valid() && Shows(s) && s.recv == Got(key) && id !in all
      modifies this
      ensures Valid()
      ensures key in old(udpPeers) ==> p == Some(old(udpPeers)[key]) && Shows(Apply(s, Known))
      ensures key !in old(udpPeers) && opens ==> p.Some? && all == old(all)[id := p.value] && Shows(Apply(s, Admit(id)))
      ensures key !in old(udpPeers) && !opens ==> p == None && Shows(Apply(s, OpenFails))
    {
      if key in udpPeers {
        return Some(udpPeers[key]);
      }
      if !opens {
        return None;
      }
      var peer := Enter(id, key, s);
      p := Some(peer);
    }

    method Enter(id: nat, key: Key, ghost s: State) returns (p: UdpPeer)
      requires Valid() && Shows(s) && s.recv == Got(key) && id !in all
      modifies this
      ensures Valid() && all == old(all)[id := p] && Shows(Apply(s, Admit(id)))
    {
      p := new UdpPeer(id, key);
      udpPeers, all := udpPeers[key := p], all[id := p];
      group := group + 1;
    }

    /** evictUDP, run once per peer. */
    method Evict(p: UdpPeer, ghost s: State)
      requires Valid() && Shows(s) && p.id in all && all[p.id] == p
      modifies this`udpPeers, p
      ensures Valid() && p.evicted
      ensures Shows(if old(p.evicted) then s else Evicted(s, p.id))
    {
      if p.evicted {
        return;
      }
      EvictedIs(s, p.id);
      p.evicted := true;
      if p.key in udpPeers && udpPeers[p.key] == p {
        udpPeers := udpPeers - {p.key};
      }
      p.open := false;
    }

    method CloseStreams()
      modifies udpPeers.Values`open
      ensures forall k :: k in udpPeers ==> !udpPeers[k].open
    {
      var left := udpPeers.Keys;
      while left != {}
        invariant left <= udpPeers.Keys
        invariant forall k :: k in udpPeers && k !in left ==> !udpPeers[k].open
        decreases left
      {
        var k :| k in left;
        udpPeers[k].open := false;
        left := left - {k};
      }
    }

    /** closePublic's pass over the table. */
    method CloseAll(ghost s: State)
      requires Valid() && Shows(s)
      modifies this`udpPeers, udpPeers.Values`open
      ensures Valid() && Shows(Apply(s, TearDown))
    {
      CloseStreams();
      udpPeers := map[];
    }
  }

  ghost predicate PeerShows(u: UdpPeer, p: Peer)
    reads u
  {
    u.key == p.key && u.open == !p.closed && p.once == if u.evicted then Done else Fresh
  }
}
