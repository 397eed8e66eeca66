// The size a room publishes (internal/server/room.go:100-101 and 127-128): the
// number of peers is read, and then stored, after the lock has been dropped.
module RoomSize {
  import opened Packets
  import opened Rooms
  import opened RoomJoin
  import opened RoomWindow
  import Runs

  /** The number of peers after the first `v` changes of the room. */
  ghost function PeersAfter(s: State, v: nat): nat
    requires v <= |s.sizes|
  {
    if v == 0 then 0 else s.sizes[v - 1]
  }

  /** Every reading, and the size published last, is the number of peers at the
      time of the reading. */
  ghost predicate SizeInv(s: State) {
    && s.stored <= |s.sizes|
    && s.room.size == PeersAfter(s, s.stored)
    && |s.room.peers| == PeersAfter(s, |s.sizes|)
    && (forall c :: c in s.counting && s.counting[c].Read? ==>
          s.counting[c].version <= |s.sizes| && s.counting[c].size == PeersAfter(s, s.counting[c].version))
  }

  lemma StepPublished(s: State, a: Action)
    requires Enabled(s, a) && SizeInv(s)
    ensures Apply(s, a).sizes == s.sizes || Apply(s, a).sizes == s.sizes + [|Apply(s, a).room.peers|]
    ensures Apply(s, a).sizes == s.sizes ==> |Apply(s, a).room.peers| == |s.room.peers|
    ensures Apply(s, a).stored <= |s.sizes| && Apply(s, a).room.size == PeersAfter(s, Apply(s, a).stored)
  {
  }

  lemma StepReading(s: State, a: Action, c: Counter)
    requires Enabled(s, a) && SizeInv(s) && c in Apply(s, a).counting && Apply(s, a).counting[c].Read?
    ensures var r := Apply(s, a).counting[c];
      r.version <= |s.sizes| && r.size == PeersAfter(s, r.version)
  {
  }

  lemma StepSize(s: State, a: Action)
    requires Enabled(s, a) && SizeInv(s)
    ensures SizeInv(Apply(s, a))
  {
    var s' := Apply(s, a);
    StepPublished(s, a);
    forall c | c in s'.counting && s'.counting[c].Read?
      ensures s'.counting[c].version <= |s.sizes| && s'.counting[c].size == PeersAfter(s, s'.counting[c].version)
    {
      StepReading(s, a, c);
    }
    assert forall v: nat :: v <= |s.sizes| ==> PeersAfter(s', v) == PeersAfter(s, v);
  }

  /** In every interleaving the published size is the number of peers after as
      many changes of the room as the reading stored last has seen. So it is
      right once a reading made after the last change has been stored last. */
  lemma SizeExact(base: Address, ss: seq<State>, acts: seq<Action>, i: nat)
    requires IsRun(base, ss, acts) && i < |ss|
    ensures SizeInv(ss[i])
    ensures ss[i].stored == |ss[i].sizes| ==> ss[i].room.size == |ss[i].room.peers|
  {
    forall s, a | SizeInv(s) && Enabled(s, a) ensures SizeInv(Apply(s, a)) {
      StepSize(s, a);
    }
    Runs.Always(Init(base), Enabled, Apply, SizeInv, ss, acts, i);
  }

  // ---- how wrong it can be ----

  function Arrivals(changes: seq<bool>): (n: nat)
    ensures n <= |changes|
  {
    if changes == [] then 0 else Arrivals(changes[..|changes| - 1]) + if changes[|changes| - 1] then 1 else 0
  }

  function Departures(changes: seq<bool>): nat {
    |changes| - Arrivals(changes)
  }

  lemma {:induction false} ArrivalsAdd(a: seq<bool>, b: seq<bool>)
    ensures Arrivals(a + b) == Arrivals(a) + Arrivals(b) && Departures(a + b) == Departures(a) + Departures(b)
  {
    if b == [] {
      assert a + b == a;
    } else {
      assert (a + b)[..|a + b| - 1] == a + b[..|b| - 1];
      ArrivalsAdd(a, b[..|b| - 1]);
    }
  }

  /** Every change is the arrival or the departure of one peer. */
  ghost predicate OneByOne(s: State) {
    && |s.arrived| == |s.sizes|
    && forall v: nat :: v <= |s.sizes| ==> PeersAfter(s, v) == Arrivals(s.arrived[..v]) - Departures(s.arrived[..v])
  }

  /** By how much one step changes the number of peers. */
  lemma StepPeers(s: State, a: Action)
    requires EnabledPrompt(s, a) && s.room.Indexed() && Pending(s)
    ensures OneMore(s, Apply(s, a), a.Insert?) || (Apply(s, a).sizes == s.sizes && Apply(s, a).arrived == s.arrived)
  {
  }

  ghost predicate OneMore(s: State, s': State, arrival: bool) {
    && s'.sizes == s.sizes + [|s'.room.peers|] && s'.arrived == s.arrived + [arrival]
    && |s'.room.peers| == |s.room.peers| + if arrival then 1 else -1
  }

  lemma StepOneByOne(s: State, a: Action)
    requires EnabledPrompt(s, a) && SizeInv(s) && s.room.Indexed() && Pending(s) && OneByOne(s)
    ensures OneByOne(Apply(s, a))
  {
    StepPeers(s, a);
    if OneMore(s, Apply(s, a), a.Insert?) {
      GrowsOneByOne(s, Apply(s, a), a.Insert?);
    } else {
      KeepsOneByOne(s, Apply(s, a));
    }
  }

  lemma KeepsOneByOne(s: State, s': State)
    requires OneByOne(s) && s'.sizes == s.sizes && s'.arrived == s.arrived
    ensures OneByOne(s')
  {
    assert forall v: nat :: v <= |s.sizes| ==> PeersAfter(s', v) == PeersAfter(s, v);
  }

  lemma GrowsOneByOne(s: State, s': State, arrival: bool)
    requires OneByOne(s) && |s.room.peers| == PeersAfter(s, |s.sizes|) && OneMore(s, s', arrival)
    ensures OneByOne(s')
  {
    forall v: nat | v <= |s'.sizes| ensures PeersAfter(s', v) == Arrivals(s'.arrived[..v]) - Departures(s'.arrived[..v]) {
      if v <= |s.sizes| {
        assert PeersAfter(s', v) == PeersAfter(s, v) && s'.arrived[..v] == s.arrived[..v];
      } else {
        assert s'.arrived[..v] == s.arrived + [arrival] && s.arrived[..|s.sizes|] == s.arrived;
        assert (s.arrived + [arrival])[..|s.arrived|] == s.arrived;
      }
    }
  }

  ghost predicate PromptInv(base: Address, s: State) {
    WindowInv(base, s) && s.room.Indexed() && Pending(s) && SizeInv(s) && OneByOne(s)
  }

  lemma StepPromptInv(base: Address, s: State, a: Action)
    requires EnabledPrompt(s, a) && PromptInv(base, s)
    ensures PromptInv(base, Apply(s, a))
  {
    StepWindow(base, s, a);
    StepPrompt(base, s, a);
    StepSize(s, a);
    StepOneByOne(s, a);
  }

  lemma PromptAlways(base: Address, ss: seq<State>, acts: seq<Action>, i: nat)
    requires PromptRun(base, ss, acts) && i < |ss|
    ensures PromptInv(base, ss[i])
  {
    var inv := (s: State) => PromptInv(base, s);
    forall s, a | inv(s) && EnabledPrompt(s, a) ensures inv(Apply(s, a)) {
      StepPromptInv(base, s, a);
    }
    Runs.Always(Init(base), EnabledPrompt, Apply, inv, ss, acts, i);
  }

  lemma MissedChanges(s: State)
    requires SizeInv(s) && OneByOne(s)
    ensures |s.room.peers| - s.room.size == Arrivals(s.arrived[s.stored..]) - Departures(s.arrived[s.stored..])
  {
    var n := |s.sizes|;
    assert s.arrived == s.arrived[..s.stored] + s.arrived[s.stored..];
    ArrivalsAdd(s.arrived[..s.stored], s.arrived[s.stored..]);
    assert PeersAfter(s, n) == Arrivals(s.arrived[..n]) - Departures(s.arrived[..n]) && s.arrived[..n] == s.arrived;
    assert PeersAfter(s, s.stored) == Arrivals(s.arrived[..s.stored]) - Departures(s.arrived[..s.stored]);
  }

  /** In a prompt run the published size is wrong by exactly the arrivals less
      the departures that the reading stored last has missed: it is right
      exactly when it has missed as many arrivals as departures. */
  lemma SizeRightIff(base: Address, ss: seq<State>, acts: seq<Action>, i: nat)
    requires PromptRun(base, ss, acts) && i < |ss|
    ensures ss[i].stored <= |ss[i].arrived|
    ensures var missed := ss[i].arrived[ss[i].stored..];
      && |ss[i].room.peers| - ss[i].room.size == Arrivals(missed) - Departures(missed)
      && (ss[i].room.size == |ss[i].room.peers| <==> Arrivals(missed) == Departures(missed))
  {
    PromptAlways(base, ss, acts, i);
    MissedChanges(ss[i]);
  }

  // ---- when nothing overlaps ----

  /** No change of the room while a size is still to be published. */
  ghost predicate Serial(s: State, a: Action) {
    a.Insert? || a.Release? ==> s.counting == map[]
  }

  ghost predicate EnabledSerial(s: State, a: Action) {
    EnabledPrompt(s, a) && Serial(s, a)
  }

  ghost predicate Current(s: State) {
    && (s.counting == map[] ==> s.stored == |s.sizes|)
    && (forall c, d :: c in s.counting && d in s.counting ==> c == d)
    && (forall c :: c in s.counting && s.counting[c].Read? ==> s.counting[c].version == |s.sizes|)
  }

  lemma StepCurrent(s: State, a: Action)
    requires EnabledSerial(s, a) && Current(s)
    ensures Current(Apply(s, a))
  {
    var s' := Apply(s, a);
    if a.StoreSize? {
      assert a.c in s.counting && forall c :: c in s.counting ==> c == a.c;
    } else if s'.sizes != s.sizes {
      assert s.counting == map[];
      var c := if a.Insert? then OfGrant(a.m) else OfRelease(a.id);
      assert c in s'.counting && forall d :: d in s'.counting ==> d == c;
    } else {
      assert s'.counting.Keys == s.counting.Keys;
    }
  }

  /** When grants and releases, their publications included, do not overlap, the
      room's whole invariant holds whenever none is under way: the indexes are
      inverse, and the published size is the number of peers. */
  lemma SerialRoomInvariant(base: Address, ss: seq<State>, acts: seq<Action>, i: nat)
    requires Runs.IsRun(Init(base), EnabledSerial, Apply, ss, acts) && i < |ss|
    ensures ss[i].room.Indexed()
    ensures ss[i].counting == map[] ==> ss[i].room.Inv()
  {
    var inv := (s: State) => PromptInv(base, s) && Current(s);
    forall s, a | inv(s) && EnabledSerial(s, a) ensures inv(Apply(s, a)) {
      StepPromptInv(base, s, a);
      StepCurrent(s, a);
    }
    Runs.Always(Init(base), EnabledSerial, Apply, inv, ss, acts, i);
  }

  // ---- and when they do ----

  /** Two peers with the given addresses are in the room, and nobody else. */
  ghost predicate JustTwo(s: State, a: Member, b: Member) {
    && a.ip != b.ip && s.room.peers == map[a.ip := a, b.ip := b]
    && s.room.byConn == map[a.conn := a, b.conn := b]
  }

  lemma DrawBoth(base: Address) returns (ss: seq<State>, acts: seq<Action>, a: Member, b: Member)
    ensures IsRun(base, ss, acts) && |acts| == 2
    ensures a.ip != b.ip && a.conn != b.conn && ss[2].room.InSubnet(a.ip) && ss[2].room.InSubnet(b.ip)
    ensures ss[2].phase == map[a := Reserved, b := Reserved] && ss[2].sizes == [] && ss[2].counting == map[]
    ensures ss[2].room.peers == map[] && ss[2].room.byConn == map[] && ss[2].room.Indexed()
  {
    a, b := Staller(base, 0), Staller(base, 1);
    ss, acts := StallRun(base, 2);
    assert StalledAt(base, 1) == map[a := 0];
    assert StalledAt(base, 2) == map[a := 0, b := 1];
    OctetsDiffer(1, 0, 1);
  }

  lemma InsertedAlone(r: RoomState, a: Member)
    requires r.peers == map[] && r.byConn == map[] && r.Indexed() && r.InSubnet(a.ip)
    ensures var r' := r.Enter(a);
      r'.peers == map[a.ip := a] && r'.byConn == map[a.conn := a] && r'.Indexed() && |r'.peers| == 1 && r'.base == r.base
  {
    InsertFresh(r, a);
  }

  lemma InsertFirst(base: Address) returns (ss: seq<State>, acts: seq<Action>, a: Member, b: Member)
    ensures IsRun(base, ss, acts) && |acts| == 4
    ensures a.ip != b.ip && a.conn != b.conn && ss[4].room.InSubnet(b.ip)
    ensures ss[4].phase == map[a := Inserted, b := Reserved] && |ss[4].sizes| == 1
    ensures ss[4].counting == map[OfGrant(a) := Read(1, 1)]
    ensures ss[4].room.peers == map[a.ip := a] && ss[4].room.byConn == map[a.conn := a] && ss[4].room.Indexed()
  {
    ss, acts, a, b := DrawBoth(base);
    InsertedAlone(ss[2].room, a);
    ss, acts := Runs.Then(Init(base), Enabled, Apply, ss, acts, Insert(a));
    assert ss[3].room == ss[2].room.Enter(a) && ss[3].sizes == [1] && ss[3].counting == map[OfGrant(a) := Unread];
    ss, acts := Runs.Then(Init(base), Enabled, Apply, ss, acts, ReadSize(OfGrant(a)));
  }

  lemma InsertedBeside(r: RoomState, a: Member, b: Member)
    requires r.peers == map[a.ip := a] && r.byConn == map[a.conn := a] && r.Indexed()
    requires r.InSubnet(b.ip) && a.ip != b.ip && a.conn != b.conn
    ensures var r' := r.Enter(b);
      r'.peers == map[a.ip := a, b.ip := b] && r'.byConn == map[a.conn := a, b.conn := b] && r'.Indexed()
  {
    InsertFresh(r, b);
  }

  lemma InsertBoth(base: Address) returns (ss: seq<State>, acts: seq<Action>, a: Member, b: Member)
    ensures IsRun(base, ss, acts) && |acts| == 5
    ensures a.conn != b.conn && JustTwo(ss[5], a, b) && ss[5].room.Indexed()
    ensures ss[5].phase == map[a := Inserted, b := Inserted]
    ensures ss[5].counting == map[OfGrant(a) := Read(1, 1), OfGrant(b) := Unread]
  {
    ss, acts, a, b := InsertFirst(base);
    InsertedBeside(ss[4].room, a, b);
    ss, acts := Runs.Then(Init(base), Enabled, Apply, ss, acts, Insert(b));
  }

  /** Two grants overlap: the first reads 1, the second reads and stores 2, the
      first stores 1. Nothing is under way any more, two peers are in the room,
      and the published size is 1. */
  lemma SizeWrong(base: Address) returns (ss: seq<State>, acts: seq<Action>)
    ensures IsRun(base, ss, acts) && |acts| == 8
    ensures ss[8].counting == map[] && ss[8].room.Indexed()
    ensures |ss[8].room.peers| == 2 && ss[8].room.size == 1
  {
    var a, b;
    ss, acts, a, b := InsertBoth(base);
    ss, acts := Runs.Then(Init(base), Enabled, Apply, ss, acts, ReadSize(OfGrant(b)));
    ss, acts := Runs.Then(Init(base), Enabled, Apply, ss, acts, StoreSize(OfGrant(b)));
    ss, acts := Runs.Then(Init(base), Enabled, Apply, ss, acts, StoreSize(OfGrant(a)));
  }
}
