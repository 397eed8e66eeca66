// The join protocol of a VPN room as several goroutines step through it:
// internal/server/connection.go (handleVPNAuth), internal/server/vpn.go
// (sendRoomMembers, notifyJoin) and internal/server/room.go (grantPeer in its
// two critical sections, releasePeer, peersSnapshot).
//
// One step is one critical section, or one unlocked access to shared state.
// Sends are taken as successful.
module RoomJoin {
  import opened Bytes
  import opened Packets
  import opened Rooms
  import Runs

  /** How far the handler of a peer has come. */
  datatype Phase =
    | Reserved                     // address drawn, lock dropped, not yet in the room
    | Inserted                     // in the room, the size perhaps not yet published
    | CtrlSet                      // peer.ctrl assigned
    | Snapped(list: set<Member>)   // member list taken, not yet written
    | Listed                       // RoomMembers written
    | Notifying(todo: set<Member>) // iterating over the room under its read lock
    | Joined
  {
    predicate HasCtrl() {
      !Reserved? && !Inserted?
    }

    predicate HasSnapped() {
      HasCtrl() && !CtrlSet?
    }
  }

  /** Who publishes the room's size after changing the room: the handler that
      has inserted its peer, or whoever has released one. */
  datatype Counter = OfGrant(m: Member) | OfRelease(id: nat)

  /** The size is read, and then stored, both without the lock. `version` is
      history: how many changes of the room the reading has seen. */
  datatype Reading = Unread | Read(size: nat, version: nat)

  datatype State = State(
    room: RoomState,
    phase: map<Member, Phase>,      // every peer that ever drew an address
    told: set<(Member, Member)>,    // (to, about), by RoomMembers or by PeerJoin
    counting: map<Counter, Reading>,// the publications under way
    sizes: seq<nat>,                // history: the number of peers after each change
    arrived: seq<bool>,             // history: whether each change was an arrival
    stored: nat,                    // history: the version of the last size stored
    at: map<Member, nat>,           // history: which cursor position gave the address
    drawn: nat)                     // history: how far the cursor has advanced in all
  {
    /** The peer is in the room; it has been since it was inserted, which
        happens once. */
    ghost predicate Present(m: Member) {
      m.ip in room.peers && room.peers[m.ip] == m
    }

    ghost predicate Others(todo: set<Member>, m: Member) {
      forall p :: p in todo <==> Present(p) && p != m
    }

    ghost predicate ReadLocked() {
      exists m :: m in phase && phase[m].Notifying?
    }

    ghost predicate At(m: Member, p: Phase) {
      m in phase && phase[m] == p
    }

    /** A critical section has left the room as `r`; `c` has to publish the size. */
    function Changed(r: RoomState, c: Counter): State {
      this.(room := r, counting := counting[c := Unread], sizes := sizes + [|r.peers|], arrived := arrived + [c.OfGrant?])
    }
  }

  datatype Action =
    | Reserve(m: Member)
    | ReserveFails
    | Insert(m: Member)
    | ReadSize(c: Counter)
    | StoreSize(c: Counter)
    | SetCtrl(m: Member)
    | Snapshot(m: Member)
    | SendMembers(m: Member)
    | BeginNotify(m: Member, others: set<Member>)
    | Notify(m: Member, to: Member)
    | EndNotify(m: Member)
    | Release(conn: Conn, id: nat)

  function Init(base: Address): State {
    State(EmptyRoom(base), map[], {}, map[], [], [], 0, map[], 0)
  }

  ghost predicate Enabled(s: State, a: Action) {
    match a
    case Reserve(m) =>
      && !s.ReadLocked()
      && s.room.Allocated() == Some(m.ip)
      && (forall n :: n in s.phase ==> n.id != m.id)
    case ReserveFails => !s.ReadLocked() && s.room.Allocated() == None
    case Insert(m) => !s.ReadLocked() && s.At(m, Reserved)
    case ReadSize(c) => c in s.counting && s.counting[c].Unread?
    case StoreSize(c) => c in s.counting && s.counting[c].Read?
    case SetCtrl(m) => s.At(m, Inserted) && OfGrant(m) !in s.counting
    case Snapshot(m) => s.At(m, CtrlSet)
    case SendMembers(m) => m in s.phase && s.phase[m].Snapped?
    case BeginNotify(m, others) => s.At(m, Listed) && s.Others(others, m)
    case Notify(m, to) => m in s.phase && to in s.phase && s.phase[m].Notifying? && to in s.phase[m].todo
    case EndNotify(m) => s.At(m, Notifying({}))
    case Release(_, id) => !s.ReadLocked() && OfRelease(id) !in s.counting
  }

  function Apply(s: State, a: Action): State {
    match a
    case Reserve(m) =>
      s.(room := s.room.AfterAllocate(), phase := s.phase[m := Reserved],
         at := s.at[m := s.drawn + s.room.Skipped(0)], drawn := s.drawn + s.room.Advances())
    case ReserveFails => s.(room := s.room.AfterAllocate(), drawn := s.drawn + s.room.Advances())
    case Insert(m) => s.Changed(s.room.Enter(m), OfGrant(m)).(phase := s.phase[m := Inserted])
    case ReadSize(c) => s.(counting := s.counting[c := Read(|s.room.peers|, |s.sizes|)])
    case StoreSize(c) =>
      if c in s.counting && s.counting[c].Read?
      then s.(room := s.room.(size := s.counting[c].size), stored := s.counting[c].version, counting := s.counting - {c})
      else s
    case SetCtrl(m) => s.(phase := s.phase[m := CtrlSet])
    case Snapshot(m) => s.(phase := s.phase[m := Snapped(s.room.peers.Values)])
    case SendMembers(m) =>
      if m in s.phase && s.phase[m].Snapped?
      then s.(told := s.told + (set p | p in s.phase[m].list :: (m, p)), phase := s.phase[m := Listed])
      else s
    case BeginNotify(m, others) => s.(phase := s.phase[m := Notifying(others)])
    case Notify(m, to) =>
      if m in s.phase && s.phase[m].Notifying? && to in s.phase
      then s.(
        told := if s.phase[to].HasCtrl() then s.told + {(to, m)} else s.told,
        phase := s.phase[m := Notifying(s.phase[m].todo - {to})])
      else s
    case EndNotify(m) => s.(phase := s.phase[m := Joined])
    case Release(conn, id) =>
      if conn in s.room.byConn then s.Changed(s.room.Leave(conn), OfRelease(id)) else s
  }

  /** A run: any interleaving of steps from the empty room. */
  ghost predicate IsRun(base: Address, ss: seq<State>, acts: seq<Action>) {
    Runs.IsRun(Init(base), Enabled, Apply, ss, acts)
  }

  // ---- mutual discovery ----

  /** `b` has not yet come round to telling `a` about itself, and will. */
  ghost predicate WillTell(s: State, b: Member, a: Member)
    requires b in s.phase
  {
    match s.phase[b]
    case Reserved => false
    case Notifying(todo) => a in todo
    case Joined => false
    case _ => true
  }

  ghost predicate Learns(s: State, a: Member, b: Member)
    requires a in s.phase && b in s.phase
  {
    || (a, b) in s.told
    || (s.phase[a].Snapped? && b in s.phase[a].list)
    || WillTell(s, b, a)
  }

  /** Peers in the room have been inserted, and under their own address. */
  ghost predicate Entered(s: State) {
    forall ip :: ip in s.room.peers ==>
      s.room.peers[ip].ip == ip && s.room.peers[ip] in s.phase && !s.phase[s.room.peers[ip]].Reserved?
  }

  ghost predicate DiscoveryInv(s: State) {
    && Entered(s)
    && (forall a, b :: s.Present(a) && s.Present(b) && a != b && s.phase[a].HasSnapped() ==> Learns(s, a, b))
  }

  /** Nobody is told of a peer that never was in the room, and only peers whose
      control stream is known are told anything. */
  ghost predicate NothingInvented(s: State) {
    && (forall m :: m in s.phase && s.phase[m].Snapped? ==> forall p :: p in s.phase[m].list ==> p in s.phase && !s.phase[p].Reserved?)
    && (forall m, p :: (m, p) in s.told ==>
          m in s.phase && s.phase[m].HasCtrl() && p in s.phase && !s.phase[p].Reserved?)
  }

  lemma StepEntered(s: State, a: Action)
    requires Enabled(s, a) && Entered(s)
    ensures Entered(Apply(s, a))
  {
  }

  /** What one step does to what a peer knows, for two peers in the room. */
  lemma StepLearns(s: State, a: Action, x: Member, y: Member)
    requires Enabled(s, a)
    requires x != y && s.Present(x) && s.Present(y)
    requires x in s.phase && !s.phase[x].Reserved? && y in s.phase && !s.phase[y].Reserved?
    requires s.phase[x].HasSnapped() ==> Learns(s, x, y)
    ensures Apply(s, a).phase[x].HasSnapped() ==> Learns(Apply(s, a), x, y)
  {
    if a.Snapshot? {
      assert s.room.peers[y.ip] in s.room.peers.Values;
    }
  }

  lemma StepDiscovery(s: State, a: Action)
    requires Enabled(s, a) && DiscoveryInv(s)
    ensures DiscoveryInv(Apply(s, a))
  {
    StepEntered(s, a);
    var s' := Apply(s, a);
    forall x, y | s'.Present(x) && s'.Present(y) && x != y && s'.phase[x].HasSnapped()
      ensures Learns(s', x, y)
    {
      if a.Insert? && a.m == y {
        assert WillTell(s', y, x);
      } else {
        assert a.Insert? ==> a.m != x;
        assert s.Present(x) && s.Present(y);
        StepLearns(s, a, x, y);
      }
    }
  }

  lemma StepNothingInvented(s: State, a: Action)
    requires Enabled(s, a) && DiscoveryInv(s) && NothingInvented(s)
    ensures NothingInvented(Apply(s, a))
  {
  }

  lemma DiscoveryAlways(base: Address, ss: seq<State>, acts: seq<Action>, i: nat)
    requires IsRun(base, ss, acts) && i < |ss|
    ensures DiscoveryInv(ss[i]) && NothingInvented(ss[i])
  {
    var inv := (s: State) => DiscoveryInv(s) && NothingInvented(s);
    forall s, a | inv(s) && Enabled(s, a) ensures inv(Apply(s, a)) {
      StepDiscovery(s, a);
      StepNothingInvented(s, a);
    }
    Runs.Always(Init(base), Enabled, Apply, inv, ss, acts, i);
  }

  /** In every interleaving, any two peers that have both finished joining and
      are both still in the room have each been told of the other. */
  lemma MutualDiscovery(base: Address, ss: seq<State>, acts: seq<Action>, i: nat, a: Member, b: Member)
    requires IsRun(base, ss, acts) && i < |ss|
    requires a != b && ss[i].Present(a) && ss[i].Present(b)
    requires ss[i].At(a, Joined) && ss[i].At(b, Joined)
    ensures (a, b) in ss[i].told && (b, a) in ss[i].told
  {
    DiscoveryAlways(base, ss, acts, i);
    assert Learns(ss[i], a, b) && Learns(ss[i], b, a);
  }

  // ---- exactly what is told ----

  ghost predicate Happened(acts: seq<Action>, a: Action, n: nat)
    requires n <= |acts|
  {
    exists j :: 0 <= j < n && acts[j] == a
  }

  /** The last of the first `n` steps in which `m` took its member list. */
  ghost function SnapshotOf(acts: seq<Action>, m: Member, n: nat): Option<nat>
    requires n <= |acts|
  {
    if n == 0 then None else if acts[n - 1] == Snapshot(m) then Some(n - 1) else SnapshotOf(acts, m, n - 1)
  }

  /** The last of them in which `m` began to iterate over the room. */
  ghost function BeginOf(acts: seq<Action>, m: Member, n: nat): Option<nat>
    requires n <= |acts|
  {
    if n == 0 then None
    else if acts[n - 1].BeginNotify? && acts[n - 1].m == m then Some(n - 1)
    else BeginOf(acts, m, n - 1)
  }

  /** Who has a control stream has set it, and who took a member list or
      iterates over the room has what he found when he began. */
  ghost predicate CtrlWasSet(s: State, acts: seq<Action>, m: Member, n: nat)
    requires n <= |acts|
  {
    m in s.phase && s.phase[m].HasCtrl() <==> Happened(acts, SetCtrl(m), n)
  }

  ghost predicate ListIsSnapshot(ss: seq<State>, acts: seq<Action>, m: Member, n: nat)
    requires n <= |acts| < |ss|
  {
    var j := SnapshotOf(acts, m, n);
    m in ss[n].phase && ss[n].phase[m].Snapped? ==>
      j.Some? && j.value < n && forall p :: p in ss[n].phase[m].list <==> ss[j.value].Present(p)
  }

  ghost predicate TodoWasPresent(ss: seq<State>, acts: seq<Action>, m: Member, n: nat)
    requires n <= |acts| < |ss|
  {
    var j := BeginOf(acts, m, n);
    m in ss[n].phase && ss[n].phase[m].Notifying? ==>
      j.Some? && j.value < n && forall p :: p in ss[n].phase[m].todo ==> ss[j.value].Present(p) && p != m
  }

  /** The members of a room are the peers present in it. */
  lemma MembersArePresent(s: State, p: Member)
    requires Entered(s)
    ensures p in s.room.peers.Values <==> s.Present(p)
  {
  }

  lemma HappenedGrows(acts: seq<Action>, a: Action, n: nat)
    requires n < |acts|
    ensures Happened(acts, a, n + 1) <==> Happened(acts, a, n) || acts[n] == a
  {
    if acts[n] == a {
      assert 0 <= n < n + 1;
    }
  }

  lemma StepCtrl(s: State, a: Action, m: Member)
    requires Enabled(s, a)
    ensures var s' := Apply(s, a);
      (m in s'.phase && s'.phase[m].HasCtrl()) <==> (m in s.phase && s.phase[m].HasCtrl()) || a == SetCtrl(m)
  {
  }

  lemma {:induction false} CtrlAlways(base: Address, ss: seq<State>, acts: seq<Action>, m: Member, n: nat)
    requires IsRun(base, ss, acts) && n <= |acts|
    ensures CtrlWasSet(ss[n], acts, m, n)
  {
    if n == 0 {
    } else {
      CtrlAlways(base, ss, acts, m, n - 1);
      assert Enabled(ss[n - 1], acts[n - 1]) && ss[n - 1 + 1] == Apply(ss[n - 1], acts[n - 1]);
      StepCtrl(ss[n - 1], acts[n - 1], m);
      HappenedGrows(acts, SetCtrl(m), n - 1);
    }
  }

  lemma StepList(s: State, a: Action, m: Member)
    requires Enabled(s, a) && Entered(s)
    requires m in Apply(s, a).phase && Apply(s, a).phase[m].Snapped?
    ensures if a == Snapshot(m)
      then forall p :: p in Apply(s, a).phase[m].list <==> s.Present(p)
      else m in s.phase && s.phase[m] == Apply(s, a).phase[m]
  {
    forall p ensures p in s.room.peers.Values <==> s.Present(p) {
      MembersArePresent(s, p);
    }
  }

  lemma {:induction false} ListAlways(base: Address, ss: seq<State>, acts: seq<Action>, m: Member, n: nat)
    requires IsRun(base, ss, acts) && n <= |acts|
    ensures ListIsSnapshot(ss, acts, m, n)
  {
    if n == 0 {
    } else {
      ListAlways(base, ss, acts, m, n - 1);
      DiscoveryAlways(base, ss, acts, n - 1);
      assert Enabled(ss[n - 1], acts[n - 1]) && ss[n - 1 + 1] == Apply(ss[n - 1], acts[n - 1]);
      if m in ss[n].phase && ss[n].phase[m].Snapped? {
        StepList(ss[n - 1], acts[n - 1], m);
      }
    }
  }

  lemma StepTodo(s: State, a: Action, m: Member)
    requires Enabled(s, a)
    requires m in Apply(s, a).phase && Apply(s, a).phase[m].Notifying?
    ensures if a.BeginNotify? && a.m == m
      then forall p :: p in Apply(s, a).phase[m].todo ==> s.Present(p) && p != m
      else m in s.phase && s.phase[m].Notifying? && Apply(s, a).phase[m].todo <= s.phase[m].todo
  {
  }

  lemma {:induction false} TodoAlways(base: Address, ss: seq<State>, acts: seq<Action>, m: Member, n: nat)
    requires IsRun(base, ss, acts) && n <= |acts|
    ensures TodoWasPresent(ss, acts, m, n)
  {
    if n == 0 {
    } else {
      TodoAlways(base, ss, acts, m, n - 1);
      assert Enabled(ss[n - 1], acts[n - 1]) && ss[n - 1 + 1] == Apply(ss[n - 1], acts[n - 1]);
      if m in ss[n].phase && ss[n].phase[m].Notifying? {
        StepTodo(ss[n - 1], acts[n - 1], m);
      }
    }
  }

  lemma StepTold(s: State, a: Action, x: Member, p: Member)
    requires Enabled(s, a)
    ensures (x, p) in Apply(s, a).told <==>
      (x, p) in s.told || (a == SendMembers(x) && p in s.phase[x].list) || (a == Notify(p, x) && s.phase[x].HasCtrl())
  {
  }

  /** Exactly what each step tells: `x` is told of `p` by x's own member list, if
      `p` was in the room when that list was taken, or by p's notification, if
      x's control stream is set by then; by nothing else. And p's notification
      goes only to peers that were in the room when it began - though p itself
      may have left before, see DepartedIsAnnounced. */
  lemma ToldExactly(base: Address, ss: seq<State>, acts: seq<Action>, i: nat, x: Member, p: Member)
    requires IsRun(base, ss, acts) && i < |acts|
    ensures acts[i] == SendMembers(x) ==> SnapshotOf(acts, x, i).Some? && SnapshotOf(acts, x, i).value < i
    ensures acts[i] == Notify(p, x) ==> BeginOf(acts, p, i).Some? && BeginOf(acts, p, i).value < i
    ensures acts[i] == Notify(p, x) ==> ss[BeginOf(acts, p, i).value].Present(x) && x != p
    ensures (x, p) in ss[i + 1].told <==>
      || (x, p) in ss[i].told
      || (acts[i] == SendMembers(x) && ss[SnapshotOf(acts, x, i).value].Present(p))
      || (acts[i] == Notify(p, x) && Happened(acts, SetCtrl(x), i))
  {
    CtrlAlways(base, ss, acts, x, i);
    ListAlways(base, ss, acts, x, i);
    TodoAlways(base, ss, acts, p, i);
    assert Enabled(ss[i], acts[i]) && ss[i + 1] == Apply(ss[i], acts[i]);
    StepTold(ss[i], acts[i], x, p);
  }

  /** Nothing checks that a peer is still in the room when it announces itself:
      whoever is released between his member list and his notification is still
      announced to the others. */
  lemma DepartedIsAnnounced(s: State, m: Member, to: Member, others: set<Member>)
      returns (s1: State, s2: State, s3: State)
    requires s.room.Indexed() && s.At(m, Listed) && s.Present(m) && s.Present(to) && m != to
    requires to in s.phase && s.phase[to].HasCtrl() && !s.ReadLocked() && OfRelease(0) !in s.counting
    requires Apply(s, Release(m.conn, 0)).Others(others, m)
    ensures Enabled(s, Release(m.conn, 0)) && s1 == Apply(s, Release(m.conn, 0)) && !s1.Present(m)
    ensures Enabled(s1, BeginNotify(m, others)) && s2 == Apply(s1, BeginNotify(m, others))
    ensures Enabled(s2, Notify(m, to)) && s3 == Apply(s2, Notify(m, to)) && (to, m) in s3.told
  {
    s1 := Apply(s, Release(m.conn, 0));
    assert s1.Present(to);
    s2 := Apply(s1, BeginNotify(m, others));
    s3 := Apply(s2, Notify(m, to));
  }
}
