// internal/server/connection.go: the tunnels of one client connection, from
// reservation to release, with the lock dropped in between, and the public
// listeners of internal/server/tunnel.go.
module Registry {
  import opened Bytes
  import Runs

  const IDS := 0x1_0000

  const LAST_PORT := 65535

  datatype Proto = Tcp | Udp

  /** A *Tunnel; `serial` (the n-th reservation) stands for the pointer. */
  datatype Tunnel = Tunnel(serial: nat, id: Word, control: nat, proto: Proto, port: int, target: string)

  datatype Table = Table(tunnels: map<Word, Tunnel>, ports: map<int, Tunnel>, nextID: Word, closed: bool)
  {
    predicate Accepts(port: int) {
      !closed && port !in ports
    }

    function Reserve(t: Tunnel): Table {
      this.(tunnels := tunnels[t.id := t], ports := ports[t.port := t], nextID := Increment16(nextID))
    }

    /** The critical section of a rollback and of releaseTunnel. */
    function Remove(t: Tunnel): Table {
      this.(tunnels := tunnels - {t.id}, ports := ports - {t.port})
    }

    function CloseAll(): Table {
      if closed then this else this.(closed := true, tunnels := map[], ports := map[])
    }

    /** Inverse indexes of the same tunnels. */
    ghost predicate Inverse() {
      && (forall id :: id in tunnels ==>
            tunnels[id].id == id && tunnels[id].port in ports && ports[tunnels[id].port] == tunnels[id])
      && (forall p :: p in ports ==>
            ports[p].port == p && ports[p].id in tunnels && tunnels[ports[p].id] == ports[p])
    }

    ghost predicate Has(t: Tunnel) {
      t.id in tunnels && tunnels[t.id] == t && t.port in ports && ports[t.port] == t
    }
  }

  /** Go's id++ on a uint16. */
  function Increment16(w: Word): Word {
    if w == 65535 then 0 else w + 1
  }

  // ---- one call at a time ----

  /** A reservation keeps the indexes inverse exactly when the next id is not
      still in use, which is what 65536 reservations on one connection bring
      about. */
  lemma ReserveKeepsInverseIff(r: Table, t: Tunnel)
    requires r.Inverse() && r.Accepts(t.port) && t.id == r.nextID
    ensures r.Reserve(t).Inverse() <==> r.nextID !in r.tunnels
  {
    var r' := r.Reserve(t);
    if t.id in r.tunnels {
      var before := r.tunnels[t.id];
      assert before.port != t.port && r'.ports[before.port] == before && r'.tunnels[before.id] == t;
    }
  }

  /** Removing a tunnel - for the first time, or again - keeps the indexes
      inverse exactly when whoever now holds its id and its port, if anyone,
      holds both. */
  lemma RemoveKeepsInverseIff(r: Table, t: Tunnel)
    requires r.Inverse()
    ensures r.Remove(t).Inverse() <==>
      (t.id in r.tunnels ==> r.tunnels[t.id].port == t.port) && (t.port in r.ports ==> r.ports[t.port].id == t.id)
  {
    var r' := r.Remove(t);
    if t.id in r.tunnels && r.tunnels[t.id].port != t.port {
      assert r.tunnels[t.id].port in r'.ports;
    }
    if t.port in r.ports && r.ports[t.port].id != t.id {
      assert r.ports[t.port].id in r'.tunnels;
    }
  }

  /** Releasing a tunnel twice would not be safe, whatever the comment on
      releaseTunnel says: once its port is reserved again, the second release
      takes the new tunnel's port entry away and leaves its id entry behind. Its
      one caller releases each granted tunnel once. */
  lemma ReleaseTwiceBreaks()
    ensures var t1, t2 := Tunnel(0, 1, 0, Tcp, 80, "a"), Tunnel(1, 2, 1, Tcp, 80, "b");
      var r := Table(map[], map[], 1, false).Reserve(t1).Remove(t1).Reserve(t2);
      r.Inverse() && r.Has(t2) && !r.Remove(t1).Inverse()
  {
    var t1, t2 := Tunnel(0, 1, 0, Tcp, 80, "a"), Tunnel(1, 2, 1, Tcp, 80, "b");
    var r := Table(map[], map[], 1, false).Reserve(t1).Remove(t1).Reserve(t2);
    assert r.tunnels == map[2 := t2] && r.ports == map[80 := t2];
    assert 2 in r.Remove(t1).tunnels && 80 !in r.Remove(t1).ports;
  }

  // ---- any interleaving ----

  datatype Phase =
    | Reserved     // in both maps, opening the public listener
    | Opened       // listener open, AuthOK not yet written
    | Failed       // open or ack failed, rollback still to come
    | Serving      // granted
    | Releasing    // out of the maps, listener still to be closed
    | Gone
  {
    predicate Registered() {
      Reserved? || Opened? || Failed? || Serving?
    }
  }

  datatype State = State(
    reg: Table,
    phase: map<Tunnel, Phase>,
    count: nat,                  // reservations so far
    listening: set<Tunnel>,      // listeners open
    shut: set<Tunnel>,           // closePublic has run: it runs once
    late: set<Tunnel>,           // history: opened after closePublic had run
    closing: set<Tunnel>)        // collected by closeAll, closePublic still to come
  {
    predicate In(t: Tunnel, p: Phase) {
      t in phase && phase[t] == p
    }

    predicate Registered(t: Tunnel) {
      t in phase && phase[t].Registered()
    }

    function ClosePublic(t: Tunnel): State {
      if t in shut then this else this.(listening := listening - {t}, shut := shut + {t})
    }
  }

  datatype Action =
    | Reserve(t: Tunnel)
    | Open(t: Tunnel)
    | OpenFails(t: Tunnel)
    | Ack(t: Tunnel)
    | AckFails(t: Tunnel)
    | Rollback(t: Tunnel)
    | Release(t: Tunnel)
    | CloseReleased(t: Tunnel)
    | CloseAll
    | CloseCollected(t: Tunnel)

  function Init(): State {
    State(Table(map[], map[], 1, false), map[], 0, {}, {}, {}, {})
  }

  /** What handleControl asks of a port before it grants a tunnel. */
  predicate IsPort(port: int) {
    1 <= port <= LAST_PORT
  }

  predicate Enabled(s: State, a: Action) {
    match a
    case Reserve(t) => IsPort(t.port) && s.reg.Accepts(t.port) && t.id == s.reg.nextID && t.serial == s.count
    case Open(t) => s.In(t, Reserved)
    case OpenFails(t) => s.In(t, Reserved)
    case Ack(t) => s.In(t, Opened)
    case AckFails(t) => s.In(t, Opened)
    case Rollback(t) => s.In(t, Failed)
    case Release(t) => s.In(t, Serving)
    case CloseReleased(t) => s.In(t, Releasing)
    case CloseAll => true
    case CloseCollected(t) => t in s.closing
  }

  function Apply(s: State, a: Action): State {
    match a
    case Reserve(t) => s.(reg := s.reg.Reserve(t), phase := s.phase[t := Reserved], count := s.count + 1)
    case Open(t) =>
      s.(phase := s.phase[t := Opened], listening := s.listening + {t}, late := if t in s.shut then s.late + {t} else s.late)
    case OpenFails(t) => s.(phase := s.phase[t := Failed])
    case Ack(t) => s.(phase := s.phase[t := Serving])
    case AckFails(t) => s.ClosePublic(t).(phase := s.phase[t := Failed])
    case Rollback(t) => s.(reg := s.reg.Remove(t), phase := s.phase[t := Gone])
    case Release(t) => s.(reg := s.reg.Remove(t), phase := s.phase[t := Releasing])
    case CloseReleased(t) => s.ClosePublic(t).(phase := s.phase[t := Gone])
    case CloseAll => s.(reg := s.reg.CloseAll(), closing := if s.reg.closed then s.closing else s.reg.tunnels.Values)
    case CloseCollected(t) => s.ClosePublic(t).(closing := s.closing - {t})
  }

  ghost predicate IsRun(ss: seq<State>, acts: seq<Action>) {
    Runs.IsRun(Init(), Enabled, Apply, ss, acts)
  }

  /** The id of the k-th reservation, before ids wrap around completely. */
  function IdOf(k: nat): Word
    requires k <= IDS
  {
    if k < 65535 then k + 1 else k - 65535
  }

  ghost predicate Numbered(s: State) {
    && (s.count <= IDS ==> s.reg.nextID == IdOf(s.count))
    && (forall t :: t in s.phase ==> t.serial < s.count)
    && (forall t, u :: t in s.phase && u in s.phase && t.serial == u.serial ==> t == u)
    && (s.count <= IDS ==> forall t :: t in s.phase ==> t.id == IdOf(t.serial))
  }

  /** Exactly the tunnels between reservation and removal are in the maps,
      unless the connection was closed: then the maps are empty. */
  ghost predicate Consistent(s: State) {
    && s.reg.Inverse()
    && (forall id :: id in s.reg.tunnels ==> s.reg.tunnels[id] in s.phase && s.phase[s.reg.tunnels[id]].Registered())
    && (!s.reg.closed ==> forall t :: t in s.phase && s.phase[t].Registered() ==> s.reg.Has(t))
    && (s.reg.closed ==> s.reg.tunnels == map[] && s.reg.ports == map[])
  }

  /** Inductive; says nothing once more than 65536 reservations were made. */
  ghost predicate Inv(s: State) {
    Numbered(s) && (s.count <= IDS ==> Consistent(s))
  }

  lemma NumberedKept(s: State, s': State)
    requires Numbered(s) && s'.count == s.count && s'.reg.nextID == s.reg.nextID && s'.phase.Keys == s.phase.Keys
    ensures Numbered(s')
  {
    assert forall t :: t in s'.phase <==> t in s.phase;
  }

  lemma NumberedGrows(s: State, t: Tunnel, s': State)
    requires Numbered(s) && t.serial == s.count && t.id == s.reg.nextID
    requires s'.count == s.count + 1 && s'.reg.nextID == Increment16(s.reg.nextID)
    requires s'.phase.Keys == s.phase.Keys + {t}
    ensures Numbered(s')
  {
    assert forall u :: u in s'.phase <==> u in s.phase || u == t;
  }

  lemma StepNumbered(s: State, a: Action)
    requires Numbered(s) && Enabled(s, a)
    ensures Numbered(Apply(s, a))
  {
    var s' := Apply(s, a);
    if a.Reserve? {
      NumberedGrows(s, a.t, s');
    } else {
      assert s'.phase.Keys == s.phase.Keys;
      NumberedKept(s, s');
    }
  }

  lemma NextIdFree(s: State)
    requires Inv(s) && s.count < IDS
    ensures s.reg.nextID !in s.reg.tunnels
  {
    assert forall id :: id in s.reg.tunnels ==>
      s.reg.tunnels[id].serial < s.count && id == IdOf(s.reg.tunnels[id].serial);
  }

  lemma StepConsistent(s: State, a: Action)
    requires Consistent(s) && Enabled(s, a)
    requires a.Reserve? ==> s.reg.nextID !in s.reg.tunnels && a.t !in s.phase
    ensures Consistent(Apply(s, a))
  {
    if a.Reserve? {
      ReserveConsistent(s, a.t);
    } else if a.Rollback? || a.Release? {
      RemoveConsistent(s, a.t, Apply(s, a));
    } else if !a.CloseAll? {
      PhaseConsistent(s, Apply(s, a));
    }
  }

  lemma StepInv(s: State, a: Action)
    requires Inv(s) && Enabled(s, a)
    ensures Inv(Apply(s, a))
  {
    StepNumbered(s, a);
    if Apply(s, a).count <= IDS {
      if a.Reserve? {
        NextIdFree(s);
      }
      StepConsistent(s, a);
    }
  }

  lemma ReserveConsistent(s: State, t: Tunnel)
    requires Consistent(s) && Enabled(s, Reserve(t)) && t.id !in s.reg.tunnels && t !in s.phase
    ensures Consistent(Apply(s, Reserve(t)))
  {
    ReserveKeepsInverseIff(s.reg, t);
  }

  lemma PhaseConsistent(s: State, s': State)
    requires Consistent(s) && s'.reg == s.reg && s'.phase.Keys == s.phase.Keys
    requires forall t :: t in s.phase ==> (s.phase[t].Registered() <==> s'.phase[t].Registered())
    ensures Consistent(s')
  {
  }

  lemma RemoveConsistent(s: State, t: Tunnel, s': State)
    requires Consistent(s) && t in s.phase && s.phase[t].Registered()
    requires s'.reg == s.reg.Remove(t)
    requires s'.phase == s.phase[t := Gone] || s'.phase == s.phase[t := Releasing]
    ensures Consistent(s')
  {
    RemoveKeepsInverseIff(s.reg, t);
    if s.reg.closed {
      assert s'.reg.tunnels == map[] && s'.reg.ports == map[];
    }
  }

  lemma InvAlways(ss: seq<State>, acts: seq<Action>, i: nat)
    requires IsRun(ss, acts) && i < |ss|
    ensures Inv(ss[i])
  {
    forall s, a | Inv(s) && Enabled(s, a) ensures Inv(Apply(s, a)) {
      StepInv(s, a);
    }
    Runs.Always(Init(), Enabled, Apply, Inv, ss, acts, i);
  }

  /** In every interleaving with at most 65536 reservations, `tunnels` and
      `ports` are inverse indexes, holding exactly the tunnels reserved and not
      yet removed while the connection is open, and nothing once it is closed. */
  lemma RegistryInvariant(ss: seq<State>, acts: seq<Action>, i: nat)
    requires IsRun(ss, acts) && i < |ss| && ss[i].count <= IDS
    ensures ss[i].reg.Inverse()
    ensures !ss[i].reg.closed ==> forall t :: t in ss[i].phase && ss[i].phase[t].Registered() <==> ss[i].reg.Has(t)
    ensures ss[i].reg.closed ==> ss[i].reg.tunnels == map[] && ss[i].reg.ports == map[]
  {
    InvAlways(ss, acts, i);
  }

  /** A rollback or a release removes its own tunnel and no other. */
  lemma RemovesOnlyItsOwn(ss: seq<State>, acts: seq<Action>, i: nat, u: Tunnel)
    requires IsRun(ss, acts) && i < |acts| && ss[i].count <= IDS
    requires acts[i].Rollback? || acts[i].Release?
    ensures ss[i + 1].reg.Has(u) <==> ss[i].reg.Has(u) && u != acts[i].t
  {
    InvAlways(ss, acts, i);
    assert Enabled(ss[i], acts[i]) && ss[i + 1] == Apply(ss[i], acts[i]);
    RemoveOnlyOne(ss[i].reg, acts[i].t, u);
  }

  lemma RemoveOnlyOne(r: Table, t: Tunnel, u: Tunnel)
    requires r.Inverse() && (r.Has(t) || (r.tunnels == map[] && r.ports == map[]))
    ensures r.Remove(t).Has(u) <==> r.Has(u) && u != t
  {
  }

  ghost predicate EmptyOnceClosed(s: State) {
    s.reg.closed ==> s.reg.tunnels == map[] && s.reg.ports == map[]
  }

  /** Once closed, both maps stay empty for ever, however many reservations
      there were. */
  lemma {:induction false} ClosedForEver(ss: seq<State>, acts: seq<Action>, i: nat, j: nat)
    requires IsRun(ss, acts) && i <= j < |ss| && ss[i].reg.closed
    ensures ss[j].reg.closed && ss[j].reg.tunnels == map[] && ss[j].reg.ports == map[]
  {
    if i == j {
      forall s, a | EmptyOnceClosed(s) && Enabled(s, a) ensures EmptyOnceClosed(Apply(s, a)) {
        StepEmpty(s, a);
      }
      Runs.Always(Init(), Enabled, Apply, EmptyOnceClosed, ss, acts, i);
    } else {
      ClosedForEver(ss, acts, i, j - 1);
      assert Enabled(ss[j - 1], acts[j - 1]) && ss[j - 1 + 1] == Apply(ss[j - 1], acts[j - 1]);
      StepEmpty(ss[j - 1], acts[j - 1]);
    }
  }

  lemma StepEmpty(s: State, a: Action)
    requires EmptyOnceClosed(s) && Enabled(s, a)
    ensures EmptyOnceClosed(Apply(s, a)) && (s.reg.closed ==> Apply(s, a).reg.closed)
  {
  }

  lemma NextMod(c: nat)
    ensures Increment16((c + 1) % 0x1_0000) == (c + 2) % 0x1_0000
  {
  }

  ghost predicate IdsInv(s: State) {
    && s.reg.nextID == (s.count + 1) % 0x1_0000
    && (forall t :: t in s.phase ==> t.id == (t.serial + 1) % 0x1_0000)
  }

  lemma StepIds(s: State, a: Action)
    requires IdsInv(s) && Enabled(s, a)
    ensures IdsInv(Apply(s, a))
  {
    if a.Reserve? {
      NextMod(s.count);
    } else {
      assert Apply(s, a).phase.Keys == s.phase.Keys && Apply(s, a).reg.nextID == s.reg.nextID;
    }
  }

  /** In every run ids are handed out from 1 on, and wrap at 65536. */
  lemma IdsExactly(ss: seq<State>, acts: seq<Action>, i: nat)
    requires IsRun(ss, acts) && i < |ss|
    ensures forall t :: t in ss[i].phase ==> t.id == (t.serial + 1) % 0x1_0000
  {
    forall s, a | IdsInv(s) && Enabled(s, a) ensures IdsInv(Apply(s, a)) {
      StepIds(s, a);
    }
    Runs.Always(Init(), Enabled, Apply, IdsInv, ss, acts, i);
  }

  // ---- ports ----

  /** Tunnels that are registered hold different ports. */
  ghost predicate PortsHeld(s: State) {
    && |s.phase| == s.count
    && (forall t :: t in s.phase ==> IsPort(t.port))
    && (forall t :: s.Registered(t) && !s.reg.closed ==> t.port in s.reg.ports && s.reg.ports[t.port] == t)
    && (forall t, u :: s.Registered(t) && s.Registered(u) && t.port == u.port ==> t == u)
  }

  /** Who is registered after a step: who was before, or has just reserved. */
  lemma StepRegistered(s: State, a: Action, t: Tunnel)
    requires Enabled(s, a) && Apply(s, a).Registered(t)
    ensures s.Registered(t) || a == Reserve(t)
    ensures a.Rollback? || a.Release? ==> t != a.t
    ensures a.Rollback? || a.Release? ==> s.Registered(a.t)
  {
  }

  lemma StepPortOf(s: State, a: Action, t: Tunnel)
    requires PortsHeld(s) && Enabled(s, a) && Apply(s, a).Registered(t) && !Apply(s, a).reg.closed
    ensures t.port in Apply(s, a).reg.ports && Apply(s, a).reg.ports[t.port] == t
  {
    StepRegistered(s, a, t);
  }

  lemma StepDistinct(s: State, a: Action, t: Tunnel, u: Tunnel)
    requires PortsHeld(s) && Enabled(s, a) && Apply(s, a).Registered(t) && Apply(s, a).Registered(u) && t.port == u.port
    ensures t == u
  {
    StepRegistered(s, a, t);
    StepRegistered(s, a, u);
  }

  lemma StepCount(s: State, a: Action)
    requires Numbered(s) && |s.phase| == s.count && Enabled(s, a)
    ensures |Apply(s, a).phase| == Apply(s, a).count
    ensures forall t :: t in Apply(s, a).phase ==> t in s.phase || (a == Reserve(t) && IsPort(t.port))
  {
    var s' := Apply(s, a);
    if a.Reserve? {
      assert a.t !in s.phase;
    } else {
      assert s'.phase.Keys == s.phase.Keys;
      SameSize(s'.phase, s.phase);
    }
  }

  lemma StepPorts(s: State, a: Action)
    requires Numbered(s) && PortsHeld(s) && Enabled(s, a)
    ensures PortsHeld(Apply(s, a))
  {
    var s' := Apply(s, a);
    StepCount(s, a);
    forall t | s'.Registered(t) && !s'.reg.closed ensures t.port in s'.reg.ports && s'.reg.ports[t.port] == t {
      StepPortOf(s, a, t);
    }
    forall t, u | s'.Registered(t) && s'.Registered(u) && t.port == u.port ensures t == u {
      StepDistinct(s, a, t, u);
    }
  }

  lemma SameSize(m: map<Tunnel, Phase>, n: map<Tunnel, Phase>)
    requires m.Keys == n.Keys
    ensures |m| == |n|
  {
    assert |m| == |m.Keys| && |n| == |n.Keys|;
  }

  lemma {:induction false} OnePortEach(tunnels: set<Tunnel>, n: nat)
    requires forall t :: t in tunnels ==> 1 <= t.port <= n
    requires forall t, u :: t in tunnels && u in tunnels && t.port == u.port ==> t == u
    ensures |tunnels| <= n
  {
    if n == 0 {
      assert tunnels == {};
    } else if t :| t in tunnels && t.port == n {
      OnePortEach(tunnels - {t}, n - 1);
    } else {
      OnePortEach(tunnels, n - 1);
    }
  }

  /** As long as every tunnel ever reserved is still registered, there have been
      no more reservations than there are ports. */
  lemma NoMoreThanPorts(s: State)
    requires PortsHeld(s) && forall t :: t in s.phase ==> s.Registered(t)
    ensures s.count <= LAST_PORT
  {
    OnePortEach(s.phase.Keys, LAST_PORT);
  }

  // ---- the bound of 65536 is tight ----

  /** The `k`-th reservation of a client that keeps port 1 and asks for port 2
      again and again. */
  function Hoarded(k: nat): Tunnel {
    if k == 0 then Tunnel(k, NextID(k), k, Tcp, 1, "a") else Tunnel(k, NextID(k), k, Tcp, 2, "b")
  }

  /** nextID after `k` reservations. */
  function NextID(k: nat): Word {
    if k == 0 then 1 else Increment16(NextID(k - 1))
  }

  lemma {:induction false} NextIDBelowWrap(k: nat)
    requires k < IDS
    ensures NextID(k) == if k < 65535 then k + 1 else 0
  {
    if k == 0 {
    } else {
      NextIDBelowWrap(k - 1);
    }
  }

  lemma NextIDWraps(k: nat)
    requires k == IDS
    ensures NextID(k) == NextID(0)
  {
    NextIDBelowWrap(k - 1);
  }

  /** After `k` reservations only port 1 is held. */
  ghost predicate Hoarding(s: State, k: nat) {
    && s.count == k && !s.reg.closed && s.reg.nextID == NextID(k)
    && (forall p :: p in s.reg.ports ==> p == 1 && k > 0)
    && (k > 0 ==> 1 in s.reg.ports && s.reg.ports[1] == Hoarded(0))
  }

  /** And now the `k`-th tunnel, counted from 0, is reserved too. */
  ghost predicate Holding(s: State, k: nat) {
    && s.count == k + 1 && !s.reg.closed && s.reg.nextID == NextID(k + 1)
    && (forall p :: p in s.reg.ports ==> p == 1 || p == Hoarded(k).port)
    && 1 in s.reg.ports && s.reg.ports[1] == Hoarded(0)
  }

  lemma HoardStep(s: State, k: nat)
    requires Hoarding(s, k)
    ensures Enabled(s, Reserve(Hoarded(k))) && Holding(Apply(s, Reserve(Hoarded(k))), k)
    ensures k == 0 ==> Hoarding(Apply(s, Reserve(Hoarded(k))), 1)
  {
  }

  lemma DropStep(s: State, k: nat, s': State)
    requires k > 0 && Holding(s, k) && s'.reg == s.reg.Remove(Hoarded(k)) && s'.count == s.count
    ensures Hoarding(s', k + 1)
  {
  }

  /** The listener of every tunnel but the first fails to open. */
  lemma {:induction false} HoardRun(k: nat) returns (ss: seq<State>, acts: seq<Action>)
    requires k > 0
    ensures IsRun(ss, acts) && Hoarding(ss[|acts|], k)
  {
    if k == 1 {
      ss, acts := [Init()], [];
      HoardStep(Init(), 0);
      ss, acts := Runs.Then(Init(), Enabled, Apply, ss, acts, Reserve(Hoarded(0)));
    } else {
      var t := Hoarded(k - 1);
      ss, acts := HoardRun(k - 1);
      HoardStep(ss[|acts|], k - 1);
      ss, acts := Runs.Then(Init(), Enabled, Apply, ss, acts, Reserve(t));
      ss, acts := Runs.Then(Init(), Enabled, Apply, ss, acts, OpenFails(t));
      DropStep(ss[|acts|], k - 1, Apply(ss[|acts|], Rollback(t)));
      ss, acts := Runs.Then(Init(), Enabled, Apply, ss, acts, Rollback(t));
    }
  }

  /** One reservation more, and there is a run in which the indexes are not
      inverse: the last tunnel has taken the id of the first, whose port still
      leads to it. */
  lemma RegistryTight() returns (ss: seq<State>, acts: seq<Action>)
    ensures IsRun(ss, acts) && ss[|acts|].count == IDS + 1
    ensures !ss[|acts|].reg.Inverse()
  {
    ss, acts := HoardRun(IDS);
    NextIDWraps(IDS);
    HoardBreaks(ss[|acts|], IDS);
    ss, acts := Runs.Then(Init(), Enabled, Apply, ss, acts, Reserve(Hoarded(IDS)));
  }

  lemma HoardBreaks(s: State, k: nat)
    requires Hoarding(s, k) && k > 0 && NextID(k) == NextID(0)
    ensures Enabled(s, Reserve(Hoarded(k))) && !Apply(s, Reserve(Hoarded(k))).reg.Inverse()
    ensures Apply(s, Reserve(Hoarded(k))).count == k + 1
  {
    var reg := Apply(s, Reserve(Hoarded(k))).reg;
    assert reg.ports[1].id == NextID(0) && reg.tunnels[NextID(0)] == Hoarded(k);
  }

  // ---- listeners ----

  ghost predicate Listeners(s: State) {
    && s.late <= s.listening && s.late <= s.shut
    && (forall t :: t in s.listening ==> t in s.phase && !s.phase[t].Reserved?)
    && (forall t :: t in s.listening && t in s.shut ==> t in s.late)
    && (forall t :: t in s.phase && s.phase[t].Failed? ==> t in s.shut || t !in s.listening)
    && (forall t :: t in s.phase && s.phase[t].Gone? ==> t in s.shut || t !in s.listening)
    && (!s.reg.closed ==> s.closing == {})
    && (s.count <= IDS && s.reg.closed ==>
          forall t :: t in s.phase && s.phase[t].Registered() ==> t in s.closing || t in s.shut)
  }

  lemma StepListeners(s: State, a: Action)
    requires Inv(s) && Listeners(s) && Enabled(s, a)
    ensures Listeners(Apply(s, a))
  {
    if a.CloseAll? && s.count <= IDS && !s.reg.closed {
      assert forall t :: s.reg.Has(t) ==> t in s.reg.tunnels.Values;
    }
  }

  lemma ListenersAlways(ss: seq<State>, acts: seq<Action>, i: nat)
    requires IsRun(ss, acts) && i < |ss|
    ensures Inv(ss[i]) && Listeners(ss[i])
  {
    var inv := (s: State) => Inv(s) && Listeners(s);
    forall s, a | inv(s) && Enabled(s, a) ensures inv(Apply(s, a)) {
      StepInv(s, a);
      StepListeners(s, a);
    }
    Runs.Always(Init(), Enabled, Apply, inv, ss, acts, i);
  }

  lemma LateOnly(s: State)
    requires Inv(s) && Listeners(s) && s.count <= IDS && s.reg.closed && s.closing == {}
    requires forall t :: t in s.phase ==> !s.phase[t].Releasing?
    ensures s.listening == s.late
  {
  }

  /** When closeAll is through, and every release with it, the listeners still
      open are exactly those of tunnels whose open finished only after their
      closePublic had run; nothing closes them any more. */
  lemma SurvivorsAreLate(ss: seq<State>, acts: seq<Action>, i: nat)
    requires IsRun(ss, acts) && i < |ss| && ss[i].count <= IDS
    requires ss[i].reg.closed && ss[i].closing == {}
    requires forall t :: t in ss[i].phase ==> !ss[i].phase[t].Releasing?
    ensures ss[i].listening == ss[i].late
  {
    ListenersAlways(ss, acts, i);
    LateOnly(ss[i]);
  }

  /** There is such a tunnel: the session ends between its reservation and the
      opening of its listener. */
  lemma LateListener() returns (ss: seq<State>, acts: seq<Action>, t: Tunnel)
    ensures IsRun(ss, acts) && acts == [Reserve(t), CloseAll, CloseCollected(t), Open(t)]
    ensures ss[4].reg.closed && ss[4].closing == {} && ss[4].listening == ss[4].late == {t}
  {
    t := Tunnel(0, 1, 0, Tcp, 80, "a");
    ss, acts := [Init()], [];
    ss, acts := Runs.Then(Init(), Enabled, Apply, ss, acts, Reserve(t));
    assert ss[1].reg.tunnels == map[1 := t] && ss[1].reg.tunnels[1] in ss[1].reg.tunnels.Values;
    assert forall u :: u in ss[1].reg.tunnels.Values ==> u == t;
    ss, acts := Runs.Then(Init(), Enabled, Apply, ss, acts, CloseAll);
    ss, acts := Runs.Then(Init(), Enabled, Apply, ss, acts, CloseCollected(t));
    ss, acts := Runs.Then(Init(), Enabled, Apply, ss, acts, Open(t));
  }

  lemma LateForEver(s: State, a: Action, t: Tunnel)
    requires Listeners(s) && Enabled(s, a) && t in s.late
    ensures t in Apply(s, a).late && t in Apply(s, a).listening
  {
  }

  // ---- the registry as the program keeps it ----

  datatype Reservation = Granted(t: Tunnel) | Closing | PortInUse

  class Connection {
    var tunnels: map<Word, Tunnel>
    var ports: map<int, Tunnel>
    var nextID: Word
    var closed: bool

    constructor ()
      ensures View() == Init().reg
    {
      tunnels, ports, nextID, closed := map[], map[], 1, false;
    }

    function View(): Table
      reads this
    {
      Table(tunnels, ports, nextID, closed)
    }

    /** grantTunnel's first critical section. */
    method Reserve(serial: nat, control: nat, proto: Proto, port: int, target: string) returns (r: Reservation)
      modifies this
      ensures r.Closing? <==> old(closed)
      ensures r.PortInUse? <==> !old(closed) && port in old(ports)
      ensures r.Granted? ==>
        && r.t == Tunnel(serial, old(nextID), control, proto, port, target)
        && View() == old(View()).Reserve(r.t)
      ensures !r.Granted? ==> View() == old(View())
    {
      if closed {
        return Closing;
      }
      if port in ports {
        return PortInUse;
      }
      var id := nextID;
      nextID := Increment16(nextID);
      var t := Tunnel(serial, id, control, proto, port, target);
      tunnels := tunnels[id := t];
      ports := ports[port := t];
      r := Granted(t);
    }

    /** The critical section of a rollback and of releaseTunnel. */
    method Remove(t: Tunnel)
      modifies this
      ensures View() == old(View()).Remove(t)
    {
      tunnels := tunnels - {t.id};
      ports := ports - {t.port};
    }

    /** closeAll's critical section; `all` are the listeners to close afterwards. */
    method CloseAll() returns (all: seq<Tunnel>)
      modifies this
      ensures View() == old(View()).CloseAll()
      ensures forall t :: t in all <==> !old(closed) && t in old(tunnels).Values
      ensures |all| == if old(closed) then 0 else |old(tunnels)|
    {
      all := [];
      if closed {
        return;
      }
      closed := true;
      var left := tunnels.Keys;
      while left != {}
        invariant left <= tunnels.Keys && |all| + |left| == |tunnels|
        invariant forall t :: t in all <==> exists id :: id in tunnels && id !in left && tunnels[id] == t
        decreases left
      {
        var id :| id in left;
        all := all + [tunnels[id]];
        left := left - {id};
      }
      tunnels := map[];
      ports := map[];
    }
  }
}
