// Runs that reach the states which theorems about runs speak of: two peers of a
// room that have both joined, a control stream with a ping answered, and two
// public peers served by one loop.
module RoomWitness {
  import opened Packets
  import opened Rooms
  import opened RoomJoin
  import opened RoomSize
  import Runs

  /** Of two peers just in the room one goes through the rest of its join. */
  lemma JoinNow(base: Address, ss: seq<State>, acts: seq<Action>, m: Member, o: Member)
      returns (ss': seq<State>, acts': seq<Action>)
    requires IsRun(base, ss, acts) && ss[|acts|].counting == map[] && m != o
    requires ss[|acts|].At(m, Inserted) && ss[|acts|].phase.Keys == {m, o} && !ss[|acts|].phase[o].Notifying?
    requires ss[|acts|].Others({o}, m)
    ensures IsRun(base, ss', acts') && ss'[|acts'|].counting == map[] && ss'[|acts'|].room == ss[|acts|].room
    ensures ss'[|acts'|].phase == ss[|acts|].phase[m := Joined]
  {
    ss', acts' := Runs.Then(Init(base), Enabled, Apply, ss, acts, SetCtrl(m));
    ss', acts' := Runs.Then(Init(base), Enabled, Apply, ss', acts', Snapshot(m));
    ss', acts' := Runs.Then(Init(base), Enabled, Apply, ss', acts', SendMembers(m));
    ss', acts' := Runs.Then(Init(base), Enabled, Apply, ss', acts', BeginNotify(m, {o}));
    ss', acts' := Runs.Then(Init(base), Enabled, Apply, ss', acts', Notify(m, o));
    assert {o} - {o} == {};
    ss', acts' := Runs.Then(Init(base), Enabled, Apply, ss', acts', EndNotify(m));
    assert ss'[|acts'|].phase == ss[|acts|].phase[m := Joined];
  }

  lemma CountKeeps(s: State, a: Action)
    requires a.ReadSize? || a.StoreSize?
    ensures Apply(s, a).phase == s.phase
    ensures Apply(s, a).room.peers == s.room.peers && Apply(s, a).room.byConn == s.room.byConn
  {
  }

  lemma Count(base: Address, ss: seq<State>, acts: seq<Action>, a: Action) returns (ss': seq<State>, acts': seq<Action>)
    requires IsRun(base, ss, acts) && Enabled(ss[|acts|], a) && (a.ReadSize? || a.StoreSize?)
    ensures IsRun(base, ss', acts') && |acts'| == |acts| + 1
    ensures ss'[|acts'|].phase == ss[|acts|].phase && ss'[|acts'|].counting == Apply(ss[|acts|], a).counting
    ensures ss'[|acts'|].room.peers == ss[|acts|].room.peers && ss'[|acts'|].room.byConn == ss[|acts|].room.byConn
  {
    CountKeeps(ss[|acts|], a);
    ss', acts' := Runs.Then(Init(base), Enabled, Apply, ss, acts, a);
  }

  lemma CountBoth(base: Address) returns (ss: seq<State>, acts: seq<Action>, a: Member, b: Member)
    ensures IsRun(base, ss, acts) && |acts| == 8 && a != b
    ensures ss[8].counting == map[] && ss[8].phase == map[a := Inserted, b := Inserted] && JustTwo(ss[8], a, b)
  {
    ss, acts, a, b := InsertBoth(base);
    ss, acts := Count(base, ss, acts, ReadSize(OfGrant(b)));
    ss, acts := Count(base, ss, acts, StoreSize(OfGrant(b)));
    ss, acts := Count(base, ss, acts, StoreSize(OfGrant(a)));
  }

  /** Two peers join one after the other, stay, and know of each other. */
  lemma BothJoin(base: Address) returns (ss: seq<State>, acts: seq<Action>, a: Member, b: Member)
    ensures IsRun(base, ss, acts) && a != b && ss[|acts|].Present(a) && ss[|acts|].Present(b)
    ensures ss[|acts|].At(a, Joined) && ss[|acts|].At(b, Joined)
    ensures (a, b) in ss[|acts|].told && (b, a) in ss[|acts|].told
  {
    ss, acts, a, b := CountBoth(base);
    assert ss[8].Others({b}, a) && ss[8].Others({a}, b);
    var s := ss[8];
    ss, acts := JoinNow(base, ss, acts, a, b);
    assert ss[|acts|].Others({a}, b);
    ss, acts := JoinNow(base, ss, acts, b, a);
    assert ss[|acts|].Present(a) && ss[|acts|].Present(b);
    MutualDiscovery(base, ss, acts, |acts|, a, b);
  }
}

module ControlWitness {
  import opened Bytes
  import opened Control
  import opened HandOff
  import Runs

  /** Empty lines stand for Auth, AuthOK, a Ping and its Pong. */
  lemma PingAnswered() returns (ss: seq<State>, acts: seq<Action>)
    ensures Runs.IsRun(Init(), Enabled, Apply, ss, acts)
    ensures ss[|acts|].client.Pinging? && ss[|acts|].server.ServingControl?
    ensures ss[|acts|].up.sent == ss[|acts|].up.got == [[], []] && ss[|acts|].down.sent == ss[|acts|].down.got == [[], []]
  {
    ss, acts := Shake();
    ss, acts := Runs.Then(Init(), Enabled, Apply, ss, acts, SendPing([]));
    ss, acts := Runs.Then(Init(), Enabled, Apply, ss, acts, ServerFillSecond(1));
    ss, acts := Runs.Then(Init(), Enabled, Apply, ss, acts, ServerTakeSecond(Some([])));
    ss, acts := Runs.Then(Init(), Enabled, Apply, ss, acts, ClientFillSecond(1));
    ss, acts := Runs.Then(Init(), Enabled, Apply, ss, acts, ClientTakeSecond);
  }

  lemma Shake() returns (ss: seq<State>, acts: seq<Action>)
    ensures Runs.IsRun(Init(), Enabled, Apply, ss, acts) && |acts| == 6
    ensures ss[6] == State(Pinging, ServingControl, Channel([[]], [[]], [], [], []), Channel([[]], [[]], [], [], []))
  {
    ss, acts := [Init()], [];
    ss, acts := Runs.Then(Init(), Enabled, Apply, ss, acts, SendAuth([]));
    ss, acts := Runs.Then(Init(), Enabled, Apply, ss, acts, ServerFillFirst(1));
    ss, acts := Runs.Then(Init(), Enabled, Apply, ss, acts, ServerTakeFirst);
    ss, acts := Runs.Then(Init(), Enabled, Apply, ss, acts, SendAuthOK([]));
    ss, acts := Runs.Then(Init(), Enabled, Apply, ss, acts, ClientFillFirst(1));
    ss, acts := Runs.Then(Init(), Enabled, Apply, ss, acts, ClientTakeFirst);
  }
}

module UdpWitness {
  import opened Bytes
  import opened UdpTransport
  import opened UdpServe
  import Runs

  /** A datagram from each of two addresses, both forwarded. */
  lemma TwoPeersServed(id: Word) returns (ss: seq<State>, acts: seq<Action>)
    ensures Runs.IsRun(Init(id), Enabled, Apply, ss, acts) && |acts| == 6
    ensures 0 in ss[6].lines && ss[6].lines[0].sent == [[7]] && ss[6].table.Current(0)
    ensures 1 in ss[6].lines && ss[6].lines[1].sent == [[8]] && ss[6].table.Current(1)
    ensures ss[6].table.recv.Idle?
  {
    ss, acts := [Init(id)], [];
    ss, acts := Runs.Then(Init(id), Enabled, Apply, ss, acts, Receive([1], [7]));
    ss, acts := Runs.Then(Init(id), Enabled, Apply, ss, acts, Admit(0));
    ss, acts := Runs.Then(Init(id), Enabled, Apply, ss, acts, WriteOk);
    ss, acts := Runs.Then(Init(id), Enabled, Apply, ss, acts, Receive([2], [8]));
    ss, acts := Runs.Then(Init(id), Enabled, Apply, ss, acts, Admit(1));
    ss, acts := Runs.Then(Init(id), Enabled, Apply, ss, acts, WriteOk);
  }
}
