// The allocator's unlocked gap (internal/server/room.go:92-98): an address is
// drawn under one lock and inserted under another. How long may a grant stall
// in between before its address is drawn a second time?
module RoomWindow {
  import opened Bytes
  import opened Packets
  import opened Rooms
  import opened RoomJoin
  import Runs

  /** Every address ever drawn is the one the cursor stood at. */
  ghost predicate WindowInv(base: Address, s: State) {
    && s.room.base == base
    && s.room.nextIP == Octet(1, s.drawn)
    && s.at.Keys == s.phase.Keys
    && (forall m :: m in s.phase ==> s.at[m] < s.drawn && m.ip == base.(d := Octet(1, s.at[m])))
    && (forall m, n :: m in s.phase && n in s.phase && m != n ==> s.at[m] != s.at[n])
  }

  lemma {:induction false} OctetAdd(cursor: Byte, d: nat, k: nat)
    ensures Octet(Octet(cursor, d), k) == Octet(cursor, d + k)
  {
    if k == 0 {
    } else {
      OctetAdd(cursor, d, k - 1);
    }
  }

  lemma WindowGrows(base: Address, s: State, s': State, m: Member, k: nat)
    requires WindowInv(base, s) && m !in s.phase && m.ip == base.(d := Octet(1, s.drawn + k))
    requires s'.at == s.at[m := s.drawn + k] && s'.phase.Keys == s.phase.Keys + {m} && s'.room.base == s.room.base
    requires s.drawn + k < s'.drawn && s'.room.nextIP == Octet(1, s'.drawn)
    ensures WindowInv(base, s')
  {
  }

  lemma ReserveAddress(base: Address, s: State, m: Member)
    requires Enabled(s, Reserve(m)) && s.room.base == base && s.room.nextIP == Octet(1, s.drawn)
    ensures m !in s.phase
    ensures s.room.Skipped(0) < s.room.Advances()
    ensures m.ip == base.(d := Octet(1, s.drawn + s.room.Skipped(0)))
  {
    OctetAdd(1, s.drawn, s.room.Skipped(0));
  }

  lemma ReserveRecords(s: State, m: Member, s': State)
    requires s' == Apply(s, Reserve(m))
    ensures s'.at == s.at[m := s.drawn + s.room.Skipped(0)] && s'.phase.Keys == s.phase.Keys + {m}
    ensures s'.room.base == s.room.base && s'.drawn == s.drawn + s.room.Advances()
  {
  }

  lemma ReserveWindow(base: Address, s: State, m: Member, s': State)
    requires WindowInv(base, s) && Enabled(s, Reserve(m)) && s' == Apply(s, Reserve(m))
    ensures WindowInv(base, s')
  {
    ReserveAddress(base, s, m);
    CursorKept(s, Reserve(m));
    ReserveRecords(s, m, s');
    WindowGrows(base, s, s', m, s.room.Skipped(0));
  }

  lemma HistoryKept(s: State, a: Action)
    requires Enabled(s, a) && !a.Reserve?
    ensures Apply(s, a).at == s.at && Apply(s, a).phase.Keys == s.phase.Keys
    ensures Apply(s, a).room.base == s.room.base
    ensures !a.ReserveFails? ==> Apply(s, a).room.nextIP == s.room.nextIP && Apply(s, a).drawn == s.drawn
  {
  }

  lemma WindowKept(base: Address, s: State, s': State)
    requires WindowInv(base, s)
    requires s'.at == s.at && s'.phase.Keys == s.phase.Keys && s'.room.base == s.room.base
    requires s.drawn <= s'.drawn && s'.room.nextIP == Octet(1, s'.drawn)
    ensures WindowInv(base, s')
  {
  }

  lemma CursorKept(s: State, a: Action)
    requires s.room.nextIP == Octet(1, s.drawn)
    ensures s.drawn <= Apply(s, a).drawn && Apply(s, a).room.nextIP == Octet(1, Apply(s, a).drawn)
  {
    if a.Reserve? || a.ReserveFails? {
      OctetAdd(1, s.drawn, s.room.Advances());
    }
  }

  lemma StepWindow(base: Address, s: State, a: Action)
    requires Enabled(s, a) && WindowInv(base, s)
    ensures WindowInv(base, Apply(s, a))
  {
    if a.Reserve? {
      ReserveWindow(base, s, a.m, Apply(s, a));
    } else {
      HistoryKept(s, a);
      CursorKept(s, a);
      WindowKept(base, s, Apply(s, a));
    }
  }

  lemma WindowAlways(base: Address, ss: seq<State>, acts: seq<Action>, i: nat)
    requires IsRun(base, ss, acts) && i < |ss|
    ensures WindowInv(base, ss[i])
  {
    var inv := (s: State) => WindowInv(base, s);
    forall s, a | inv(s) && Enabled(s, a) ensures inv(Apply(s, a)) {
      StepWindow(base, s, a);
    }
    Runs.Always(Init(base), Enabled, Apply, inv, ss, acts, i);
  }

  lemma SameOctetIff(i: nat, j: nat)
    ensures Octet(1, i) == Octet(1, j) <==> (i - j) % HOSTS == 0
  {
    OctetClosedForm(1, i);
    OctetClosedForm(1, j);
    SameRemainderIff(i, j);
  }

  lemma SameRemainderIff(x: nat, y: nat)
    ensures x % HOSTS == y % HOSTS <==> (x - y) % HOSTS == 0
  {
    var d := x - y;
    assert x == HOSTS * (x / HOSTS) + x % HOSTS && y == HOSTS * (y / HOSTS) + y % HOSTS;
    assert d == HOSTS * (d / HOSTS) + d % HOSTS;
  }

  /** Two addresses ever drawn are the same exactly when they were drawn a whole
      number of turns of the cursor apart: in particular never within fewer than
      254 advances, even when none of them has been inserted yet. */
  lemma WindowExact(base: Address, ss: seq<State>, acts: seq<Action>, i: nat, m: Member, n: Member)
    requires IsRun(base, ss, acts) && i < |ss|
    requires m in ss[i].phase && n in ss[i].phase && m != n
    ensures m in ss[i].at && n in ss[i].at && ss[i].at[m] != ss[i].at[n]
    ensures m.ip == n.ip <==> (ss[i].at[m] - ss[i].at[n]) % HOSTS == 0
  {
    WindowAlways(base, ss, acts, i);
    SameOctetIff(ss[i].at[m], ss[i].at[n]);
  }

  lemma WindowDistinct(base: Address, ss: seq<State>, acts: seq<Action>, i: nat, m: Member, n: Member)
    requires IsRun(base, ss, acts) && i < |ss|
    requires m in ss[i].phase && n in ss[i].phase && m != n
    requires m in ss[i].at && n in ss[i].at && -HOSTS < ss[i].at[m] - ss[i].at[n] < HOSTS
    ensures m.ip != n.ip
  {
    WindowExact(base, ss, acts, i, m, n);
  }

  // ---- prompt grants ----

  /** No address is drawn while a grant is pending whose own address was drawn
      254 or more cursor positions earlier, and a connection is granted only
      when it has no live grant. */
  ghost predicate Prompt(s: State, a: Action) {
    match a
    case Reserve(_) => forall n :: s.At(n, Reserved) && n in s.at ==> s.drawn + s.room.Skipped(0) - s.at[n] < HOSTS
    case Insert(m) => m.conn !in s.room.byConn
    case _ => true
  }

  ghost predicate EnabledPrompt(s: State, a: Action) {
    Enabled(s, a) && Prompt(s, a)
  }

  ghost predicate PromptRun(base: Address, ss: seq<State>, acts: seq<Action>) {
    Runs.IsRun(Init(base), EnabledPrompt, Apply, ss, acts)
  }

  ghost predicate Pending(s: State) {
    && (forall n :: s.At(n, Reserved) ==> s.room.InSubnet(n.ip) && n.ip !in s.room.peers)
    && (forall m, n :: s.At(m, Reserved) && s.At(n, Reserved) && m != n ==> m.ip != n.ip)
  }

  lemma ReserveIsNew(base: Address, s: State, m: Member, n: Member)
    requires Enabled(s, Reserve(m)) && Prompt(s, Reserve(m))
    requires WindowInv(base, s) && s.At(n, Reserved)
    ensures m.ip != n.ip
  {
    ReserveAddress(base, s, m);
    OctetsDiffer(1, s.drawn + s.room.Skipped(0), s.at[n]);
  }

  lemma PendingGrows(s: State, m: Member, s': State)
    requires Pending(s) && s'.room.peers == s.room.peers && s'.room.base == s.room.base
    requires s.room.InSubnet(m.ip) && m.ip !in s.room.peers
    requires forall n :: s.At(n, Reserved) ==> m.ip != n.ip
    requires s'.phase == s.phase[m := Reserved]
    ensures Pending(s')
  {
    assert forall n :: s'.At(n, Reserved) ==> n == m || s.At(n, Reserved);
  }

  lemma PendingShrinks(s: State, s': State)
    requires Pending(s) && s'.room.base == s.room.base
    requires forall n :: s'.At(n, Reserved) ==> s.At(n, Reserved) && (n.ip in s'.room.peers ==> n.ip in s.room.peers)
    ensures Pending(s')
  {
  }

  lemma RoomKept(s: State, a: Action)
    requires !a.Reserve? && !a.ReserveFails? && !a.Insert? && !a.Release?
    ensures Apply(s, a).room.(size := 0) == s.room.(size := 0)
  {
  }

  lemma StepRoomInv(s: State, a: Action)
    requires Enabled(s, a) && Prompt(s, a)
    requires s.room.Indexed() && Pending(s)
    ensures Apply(s, a).room.Indexed()
  {
    match a
    case Reserve(_) => AllocateKeepsInv(s.room);
    case ReserveFails => AllocateKeepsInv(s.room);
    case Insert(m) => InsertFresh(s.room, m);
    case Release(conn, _) => ReleaseKeepsInv(s.room, conn);
    case _ => RoomKept(s, a);
  }

  lemma StepPending(base: Address, s: State, a: Action)
    requires Enabled(s, a) && Prompt(s, a)
    requires WindowInv(base, s) && Pending(s)
    requires a.Reserve? ==> s.room.InSubnet(a.m.ip) && a.m.ip !in s.room.peers
    ensures Pending(Apply(s, a))
  {
    if a.Reserve? {
      forall n | s.At(n, Reserved) ensures a.m.ip != n.ip {
        ReserveIsNew(base, s, a.m, n);
      }
      PendingGrows(s, a.m, Apply(s, a));
    } else {
      PendingShrinks(s, Apply(s, a));
    }
  }

  lemma StepPrompt(base: Address, s: State, a: Action)
    requires Enabled(s, a) && Prompt(s, a)
    requires WindowInv(base, s) && s.room.Indexed() && Pending(s)
    ensures Apply(s, a).room.Indexed() && Pending(Apply(s, a))
  {
    if a.Reserve? {
      AllocateKeepsInv(s.room);
    }
    StepPending(base, s, a);
    StepRoomInv(s, a);
  }

  /** In every prompt run the two indexes of the room stay consistent, all
      addresses stay in the subnet, and no insertion replaces another peer -
      although the lock is dropped between drawing and inserting. */
  lemma PromptRoomInvariant(base: Address, ss: seq<State>, acts: seq<Action>, i: nat)
    requires PromptRun(base, ss, acts) && i < |ss|
    ensures ss[i].room.Indexed()
    ensures i < |acts| && acts[i].Insert? ==> acts[i].m.ip !in ss[i].room.peers
  {
    var inv := (s: State) => WindowInv(base, s) && s.room.Indexed() && Pending(s);
    forall s, a | inv(s) && EnabledPrompt(s, a) ensures inv(Apply(s, a)) {
      StepWindow(base, s, a);
      StepPrompt(base, s, a);
    }
    Runs.Always(Init(base), EnabledPrompt, Apply, inv, ss, acts, i);
    if i < |acts| && acts[i].Insert? {
      assert EnabledPrompt(ss[i], acts[i]);
      assert ss[i].At(acts[i].m, Reserved);
    }
  }

  // ---- the bound is tight ----

  /** The `k`-th of a series of peers that draw an address and then stall. */
  function Staller(base: Address, k: nat): Member {
    Member(k, base.(d := Octet(1, k)), k, PeerInfo("", "", ""))
  }

  function StalledAt(base: Address, k: nat): (at: map<Member, nat>)
    ensures forall m :: m in at ==> m.id < k
    ensures forall j :: 0 <= j < k ==> Staller(base, j) in at && at[Staller(base, j)] == j
  {
    if k == 0 then map[] else StalledAt(base, k - 1)[Staller(base, k - 1) := k - 1]
  }

  function Stalled(base: Address, k: nat): State {
    var at := StalledAt(base, k);
    State(EmptyRoom(base).(nextIP := Octet(1, k)), map m | m in at :: Reserved, {}, map[], [], [], 0, at, k)
  }

  lemma StallStep(base: Address, k: nat)
    ensures Enabled(Stalled(base, k), Reserve(Staller(base, k)))
    ensures Apply(Stalled(base, k), Reserve(Staller(base, k))) == Stalled(base, k + 1)
  {
    var s := Stalled(base, k);
    assert !s.room.Taken(0);
    OctetAdd(1, k, 0);
    OctetAdd(1, k, 1);
    assert Apply(s, Reserve(Staller(base, k))).phase == Stalled(base, k + 1).phase;
  }

  lemma {:induction false} StallRun(base: Address, k: nat) returns (ss: seq<State>, acts: seq<Action>)
    ensures IsRun(base, ss, acts) && |acts| == k && ss[k] == Stalled(base, k)
  {
    if k == 0 {
      ss, acts := [Init(base)], [];
      assert Stalled(base, 0).phase == map[];
    } else {
      ss, acts := StallRun(base, k - 1);
      StallStep(base, k - 1);
      Runs.Extend(Init(base), Enabled, Apply, ss, acts, Reserve(Staller(base, k - 1)));
      ss, acts := ss + [Stalled(base, k)], acts + [Reserve(Staller(base, k - 1))];
    }
  }

  /** Inserting two grants that hold the same address breaks the indexes: the
      first peer is still found by its connection, and its address leads to the
      second one. */
  lemma CollisionBreaks(base: Address, ss: seq<State>, acts: seq<Action>, m: Member, n: Member)
      returns (ss': seq<State>, acts': seq<Action>)
    requires IsRun(base, ss, acts)
    requires ss[|acts|].At(m, Reserved) && ss[|acts|].At(n, Reserved) && m != n && m.ip == n.ip && m.conn != n.conn
    requires !ss[|acts|].ReadLocked()
    ensures IsRun(base, ss', acts') && acts' == acts + [Insert(m), Insert(n)]
    ensures ss'[..|ss|] == ss && !ss'[|acts'|].room.Indexed()
  {
    var s := ss[|acts|];
    var s1 := Apply(s, Insert(m));
    var s2 := Apply(s1, Insert(n));
    Runs.Extend(Init(base), Enabled, Apply, ss, acts, Insert(m));
    assert forall p :: p in s1.phase && s1.phase[p].Notifying? ==> p in s.phase && s.phase[p].Notifying?;
    Runs.Extend(Init(base), Enabled, Apply, ss + [s1], acts + [Insert(m)], Insert(n));
    ss', acts' := ss + [s1] + [s2], acts + [Insert(m)] + [Insert(n)];
    assert acts' == acts + [Insert(m), Insert(n)];
    assert m.conn in s2.room.byConn && s2.room.byConn[m.conn] == m && s2.room.peers[m.ip] == n;
  }

  /** 254 advances are one too many: there is a run in which two grants are
      pending at once with the same address, and then both inserted. */
  lemma WindowTight(base: Address) returns (ss: seq<State>, acts: seq<Action>, m: Member, n: Member)
    ensures IsRun(base, ss, acts) && |acts| == 257
    ensures ss[255].At(m, Reserved) && ss[255].At(n, Reserved) && m != n && m.ip == n.ip
    ensures m in ss[255].at && n in ss[255].at && ss[255].at[n] == ss[255].at[m] + HOSTS
    ensures !ss[257].room.Indexed()
  {
    ss, acts := StallRun(base, 255);
    m, n := Staller(base, 0), Staller(base, 254);
    OctetClosedForm(1, 0);
    OctetClosedForm(1, 254);
    ghost var stalled := ss;
    ss, acts := CollisionBreaks(base, ss, acts, m, n);
    assert ss[..|stalled|][255] == stalled[255];
  }
}
