// One client session end to end: tunnel handshakes in any interleaving
// (internal/client/client.go runOnce and setupTunnel against
// internal/server/connection.go handleControl and grantTunnel), data streams
// opened by the server (internal/server/tunnel.go handleTCPConn) and
// dispatched by the client (client.go handleData).
module Demux {
  import opened Bytes
  import opened Codec
  import opened Framing
  import opened Registry
  import Runs

  /** A TunnelSpec of the client's configuration; "" stands for tcp. */
  datatype SpecProto = Default | Named(proto: Proto)

  datatype Spec = Spec(proto: SpecProto, port: int, target: string)

  /** What the client puts into Auth, and what validProto makes of it. */
  function Resolve(p: SpecProto): Proto {
    match p
    case Default => Tcp
    case Named(proto) => proto
  }

  /** What the client's table maps a tunnel id to. */
  datatype RemoteTunnel = RemoteTunnel(proto: Proto, local: string)

  function AsRemote(spec: Spec): RemoteTunnel {
    RemoteTunnel(Resolve(spec.proto), spec.target)
  }

  /** How far a control stream - one per spec - has come. */
  datatype Control =
    | Unopened
    | AuthSent                 // Auth written, handler not yet past it
    | Handled                  // the server's handler has reserved a tunnel
    | Refused                  // AuthErr written, or the stream closed, without AuthOK
    | Replied(id: Word)        // AuthOK written, not yet read
    | Registered               // the client has put the tunnel into its table

  /** A data stream: the tunnel it was opened for, and its first bytes. */
  datatype Stream = Stream(t: Tunnel, bytes: seq<Byte>)

  datatype Session = Session(
    specs: seq<Spec>,
    server: Registry.State,
    controls: seq<Control>,          // one per spec
    tuns: map<Word, RemoteTunnel>,   // the client's table
    streams: seq<Stream>,            // opened by the server, in order
    serving: bool)                   // the client accepts data streams
  {
    predicate At(i: nat, c: Control) {
      i < |controls| && controls[i] == c
    }

    /** The state of the control stream a tunnel was requested on. */
    function Of(t: Tunnel): Control {
      if t.control < |controls| then controls[t.control] else Unopened
    }
  }

  datatype Action =
    | SendAuth(i: nat)
    | Grant(t: Tunnel)               // the handler of t's control stream reserves
    | Refuse(i: nat)                 // or it refuses: closing, or port in use
    | AckTunnel(t: Tunnel)
    | LoseTunnel(t: Tunnel)          // the rollback after a failed open or ack
    | Other(a: Registry.Action)      // every other step of the server
    | ReadReply(i: nat)
    | OpenStream(t: Tunnel, more: seq<Byte>)
    | Serve

  function Init(specs: seq<Spec>): Session {
    Session(specs, Registry.Init(), seq(|specs|, _ => Unopened), map[], [], false)
  }

  ghost predicate Enabled(s: Session, a: Action) {
    match a
    case SendAuth(i) => s.At(i, Unopened)
    case Grant(t) =>
      && s.At(t.control, AuthSent) && t.control < |s.specs|
      && t.proto == Resolve(s.specs[t.control].proto)
      && t.port == s.specs[t.control].port && t.target == s.specs[t.control].target
      && Registry.Enabled(s.server, Registry.Reserve(t))
    case Refuse(i) => s.At(i, AuthSent)
    case AckTunnel(t) => Registry.Enabled(s.server, Registry.Ack(t)) && s.At(t.control, Handled)
    case LoseTunnel(t) => Registry.Enabled(s.server, Registry.Rollback(t)) && s.At(t.control, Handled)
    case Other(b) => !b.Reserve? && !b.Ack? && !b.Rollback? && Registry.Enabled(s.server, b)
    case ReadReply(i) => i < |s.controls| && s.controls[i].Replied?
    case OpenStream(t, _) => t in s.server.phase   // at any time: connections accepted earlier may still be in flight
    case Serve => forall i: nat :: i < |s.specs| ==> s.At(i, Registered)
  }

  function SetControl(controls: seq<Control>, i: nat, c: Control): seq<Control> {
    if i < |controls| then controls[i := c] else controls
  }

  function Apply(s: Session, a: Action): Session {
    match a
    case SendAuth(i) => s.(controls := SetControl(s.controls, i, AuthSent))
    case Grant(t) =>
      s.(server := Registry.Apply(s.server, Registry.Reserve(t)), controls := SetControl(s.controls, t.control, Handled))
    case Refuse(i) => s.(controls := SetControl(s.controls, i, Refused))
    case AckTunnel(t) =>
      s.(server := Registry.Apply(s.server, Registry.Ack(t)), controls := SetControl(s.controls, t.control, Replied(t.id)))
    case LoseTunnel(t) =>
      s.(server := Registry.Apply(s.server, Registry.Rollback(t)), controls := SetControl(s.controls, t.control, Refused))
    case Other(b) => s.(server := Registry.Apply(s.server, b))
    case ReadReply(i) =>
      if i < |s.controls| && s.controls[i].Replied? && i < |s.specs|
      then s.(tuns := s.tuns[s.controls[i].id := AsRemote(s.specs[i])], controls := SetControl(s.controls, i, Registered))
      else s
    case OpenStream(t, more) => s.(streams := s.streams + [Stream(t, BigEndian(t.id) + more)])
    case Serve => s.(serving := true)
  }

  ghost predicate IsRun(specs: seq<Spec>, ss: seq<Session>, acts: seq<Action>) {
    Runs.IsRun(Init(specs), Enabled, Apply, ss, acts)
  }

  /** A stream is relayed to the target its spec names, as udp if the spec says
      udp and as tcp if it says tcp or nothing. */
  predicate IsAsAsked(r: Option<RemoteTunnel>, spec: Spec) {
    r.Some? && r.value.local == spec.target && (r.value.proto.Udp? <==> spec.proto == Named(Udp))
  }

  /** handleData: the tunnel of a stream, looked up by the id it starts with. */
  function Dispatch(tuns: map<Word, RemoteTunnel>, bytes: seq<Byte>): Option<RemoteTunnel> {
    match ParseTunnelID(bytes)
    case Failed(_) => None
    case Parsed(id, _) => if id in tuns then Some(tuns[id]) else None
  }

  // ---- invariant ----

  /** A tunnel's record agrees with the spec of its control stream. */
  ghost predicate AsRequested(s: Session, t: Tunnel) {
    && t.control < |s.specs| && !s.Of(t).Unopened? && !s.Of(t).AuthSent?
    && t.proto == Resolve(s.specs[t.control].proto) && t.target == s.specs[t.control].target
  }

  /** And one control stream yields at most one tunnel. */
  ghost predicate Requested(s: Session) {
    && |s.controls| == |s.specs|
    && (forall t :: t in s.server.phase ==> AsRequested(s, t))
    && (forall t, u :: t in s.server.phase && u in s.server.phase && t.control == u.control ==> t == u)
  }

  /** An AuthOK carries the id of the tunnel of its own control stream. */
  ghost predicate Answered(s: Session) {
    && (forall t :: t in s.server.phase && s.Of(t).Replied? ==> s.Of(t).id == t.id)
    && (forall i :: 0 <= i < |s.controls| && s.controls[i].Replied? ==> exists t :: t in s.server.phase && t.control == i)
  }

  /** The client's table maps the id of every registered tunnel to its spec. */
  ghost predicate Tabled(s: Session) {
    forall t :: t in s.server.phase && s.Of(t).Registered? && t.control < |s.specs| ==>
      t.id in s.tuns && s.tuns[t.id] == AsRemote(s.specs[t.control])
  }

  ghost predicate Streamed(s: Session) {
    && (forall k :: 0 <= k < |s.streams| ==>
          && s.streams[k].t in s.server.phase
          && |s.streams[k].bytes| >= 2 && s.streams[k].bytes[..2] == BigEndian(s.streams[k].t.id))
    && (s.serving ==> forall i: nat :: i < |s.specs| ==> s.At(i, Registered))
  }

  ghost predicate Inv(s: Session) {
    && Registry.Numbered(s.server)
    && Requested(s) && Answered(s) && Streamed(s)
    && (s.server.count <= IDS ==> Tabled(s))
  }

  lemma StepServer(s: Session, a: Action)
    requires Registry.Numbered(s.server) && Enabled(s, a)
    ensures Registry.Numbered(Apply(s, a).server)
  {
    match a
    case Grant(t) => Registry.StepNumbered(s.server, Registry.Reserve(t));
    case AckTunnel(t) => Registry.StepNumbered(s.server, Registry.Ack(t));
    case LoseTunnel(t) => Registry.StepNumbered(s.server, Registry.Rollback(t));
    case Other(b) => Registry.StepNumbered(s.server, b);
    case _ =>
  }

  /** Which tunnels the server knows of after a step. */
  lemma StepTunnels(s: Session, a: Action)
    requires Enabled(s, a)
    ensures Apply(s, a).specs == s.specs
    ensures s.server.phase.Keys <= Apply(s, a).server.phase.Keys
    ensures forall t :: t in Apply(s, a).server.phase ==> t in s.server.phase || a == Grant(t)
    ensures s.server.count <= Apply(s, a).server.count
  {
  }

  lemma StepAsRequested(s: Session, a: Action, t: Tunnel)
    requires Enabled(s, a) && |s.controls| == |s.specs|
    requires if t in s.server.phase then AsRequested(s, t) else a == Grant(t)
    ensures AsRequested(Apply(s, a), t)
  {
  }

  lemma StepRequested(s: Session, a: Action)
    requires Enabled(s, a) && Requested(s)
    ensures Requested(Apply(s, a))
  {
    StepTunnels(s, a);
    forall t | t in Apply(s, a).server.phase ensures AsRequested(Apply(s, a), t) {
      StepAsRequested(s, a, t);
    }
  }

  lemma StepReplied(s: Session, a: Action, i: nat)
    requires Enabled(s, a) && Requested(s) && Answered(s) && i < |s.controls|
    requires i < |Apply(s, a).controls| && Apply(s, a).controls[i].Replied?
    ensures exists t :: t in Apply(s, a).server.phase && t.control == i
  {
    StepTunnels(s, a);
    if s.controls[i].Replied? {
      var t :| t in s.server.phase && t.control == i;
      assert t in Apply(s, a).server.phase;
    }
  }

  /** How a control stream can have come to an AuthOK. */
  lemma StepOf(s: Session, a: Action, t: Tunnel)
    requires Enabled(s, a) && t.control < |s.controls|
    ensures Apply(s, a).Of(t).Replied? ==>
      Apply(s, a).Of(t) == s.Of(t) || (a.AckTunnel? && a.t.control == t.control && Apply(s, a).Of(t) == Replied(a.t.id))
    ensures a.Grant? && a.t == t ==> !Apply(s, a).Of(t).Replied?
    ensures a.AckTunnel? ==> a.t in s.server.phase
  {
  }

  lemma StepReplyId(s: Session, a: Action, t: Tunnel)
    requires Enabled(s, a) && Requested(s) && Answered(s)
    requires t in Apply(s, a).server.phase && Apply(s, a).Of(t).Replied?
    ensures Apply(s, a).Of(t).id == t.id
  {
    StepTunnels(s, a);
    assert t.control < |s.controls| by {
      assert t in s.server.phase ==> AsRequested(s, t);
    }
    StepOf(s, a, t);
  }

  lemma StepAnswered(s: Session, a: Action)
    requires Enabled(s, a) && Requested(s) && Answered(s) && Requested(Apply(s, a))
    ensures Answered(Apply(s, a))
  {
    forall t | t in Apply(s, a).server.phase && Apply(s, a).Of(t).Replied? ensures Apply(s, a).Of(t).id == t.id {
      StepReplyId(s, a, t);
    }
    forall i | 0 <= i < |s.controls| && Apply(s, a).controls[i].Replied?
      ensures exists t :: t in Apply(s, a).server.phase && t.control == i
    {
      StepReplied(s, a, i);
    }
  }

  lemma StepStreamed(s: Session, a: Action)
    requires Enabled(s, a) && Streamed(s)
    ensures Streamed(Apply(s, a))
  {
    StepTunnels(s, a);
    forall i: nat | Apply(s, a).serving && i < |s.specs| ensures Apply(s, a).At(i, Registered) {
      assert s.At(i, Registered);
    }
  }

  /** Distinct tunnels have distinct ids, up to 65536 reservations. */
  lemma IdsDistinct(s: Registry.State, t: Tunnel, u: Tunnel)
    requires Registry.Numbered(s) && s.count <= IDS && t in s.phase && u in s.phase && t != u
    ensures t.id != u.id
  {
  }

  lemma TabledKept(s: Session, a: Action)
    requires Enabled(s, a) && !a.ReadReply? && Requested(s) && Tabled(s)
    ensures Tabled(Apply(s, a))
  {
    StepTunnels(s, a);
  }

  /** Reading an AuthOK adds the right entry and overwrites no other tunnel's. */
  lemma TabledGrows(s: Session, i: nat)
    requires Enabled(s, ReadReply(i)) && Requested(s) && Answered(s) && Tabled(s)
    requires Registry.Numbered(s.server) && s.server.count <= IDS
    ensures Tabled(Apply(s, ReadReply(i)))
  {
    var u :| u in s.server.phase && u.control == i;
    var s' := Apply(s, ReadReply(i));
    assert s'.tuns == s.tuns[u.id := AsRemote(s.specs[i])];
    forall t | t in s'.server.phase && s'.Of(t).Registered? && t.control < |s.specs|
      ensures t.id in s'.tuns && s'.tuns[t.id] == AsRemote(s.specs[t.control])
    {
      if t != u {
        IdsDistinct(s.server, t, u);
        assert s.Of(t).Registered?;
      }
    }
  }

  lemma StepInv(s: Session, a: Action)
    requires Inv(s) && Enabled(s, a)
    ensures Inv(Apply(s, a))
  {
    StepServer(s, a);
    StepRequested(s, a);
    StepAnswered(s, a);
    StepStreamed(s, a);
    StepTunnels(s, a);
    if Apply(s, a).server.count <= IDS {
      if a.ReadReply? {
        TabledGrows(s, a.i);
      } else {
        TabledKept(s, a);
      }
    }
  }

  lemma InvAlways(specs: seq<Spec>, ss: seq<Session>, acts: seq<Action>, i: nat)
    requires IsRun(specs, ss, acts) && i < |ss|
    ensures Inv(ss[i])
  {
    forall s, a | Inv(s) && Enabled(s, a) ensures Inv(Apply(s, a)) {
      StepInv(s, a);
    }
    Runs.Always(Init(specs), Enabled, Apply, Inv, ss, acts, i);
  }

  /** In every interleaving with at most 65536 reservations, once the client
      accepts data streams it finds every stream the server opened - before or
      after the last AuthOK - in its table, and relays it to exactly the local
      target and by exactly the transport its own spec asked for. */
  lemma DemultiplexesWithinIds(specs: seq<Spec>, ss: seq<Session>, acts: seq<Action>, i: nat, k: nat)
    requires IsRun(specs, ss, acts) && i < |ss| && ss[i].server.count <= IDS
    requires ss[i].serving && k < |ss[i].streams|
    ensures var t := ss[i].streams[k].t;
      && ss[i].specs == specs && t.control < |specs|
      && IsAsAsked(Dispatch(ss[i].tuns, ss[i].streams[k].bytes), specs[t.control])
      && (t.proto.Udp? <==> specs[t.control].proto == Named(Udp)) && t.target == specs[t.control].target
  {
    InvAlways(specs, ss, acts, i);
    var s, stream := ss[i], ss[i].streams[k];
    assert stream.t in s.server.phase;
    assert s.At(stream.t.control, Registered);
    assert stream.bytes == BigEndian(stream.t.id) + stream.bytes[2..];
    TunnelIDRoundTrip(stream.t.id, stream.bytes[2..]);
    TableIsLastRead(specs, ss, acts, stream.t.id, i);
  }

  // ---- without early releases ----

  /** A step that releases no granted tunnel before the client serves. */
  ghost predicate EnabledKept(s: Session, a: Action) {
    Enabled(s, a) && (a.Other? && a.a.Release? ==> s.serving)
  }

  /** Before the client serves, whoever was acknowledged is served. */
  ghost predicate AllKept(s: Session) {
    forall t :: t in s.server.phase && (s.Of(t).Replied? || s.Of(t).Registered?) ==> s.server.phase[t].Serving?
  }

  ghost predicate KeptInv(s: Session) {
    && Inv(s) && Registry.PortsHeld(s.server)
    && (!s.serving ==> AllKept(s))
    && (s.serving ==> s.server.count <= LAST_PORT)
  }

  lemma StepServerPorts(s: Session, a: Action)
    requires Registry.Numbered(s.server) && Registry.PortsHeld(s.server) && Enabled(s, a)
    ensures Registry.PortsHeld(Apply(s, a).server)
  {
    match a
    case Grant(t) => Registry.StepPorts(s.server, Registry.Reserve(t));
    case AckTunnel(t) => Registry.StepPorts(s.server, Registry.Ack(t));
    case LoseTunnel(t) => Registry.StepPorts(s.server, Registry.Rollback(t));
    case Other(b) => Registry.StepPorts(s.server, b);
    case _ =>
  }

  lemma StepKept(s: Session, a: Action)
    requires EnabledKept(s, a) && Requested(s) && AllKept(s) && !Apply(s, a).serving
    ensures AllKept(Apply(s, a))
  {
    var s' := Apply(s, a);
    forall t | t in s'.server.phase && (s'.Of(t).Replied? || s'.Of(t).Registered?) ensures s'.server.phase[t].Serving? {
      if t in s.server.phase {
        assert AsRequested(s, t);
        StepServing(s, a, t);
      }
    }
  }

  lemma StepServing(s: Session, a: Action, t: Tunnel)
    requires EnabledKept(s, a) && Requested(s) && t in s.server.phase && !s.serving
    requires s.Of(t).Replied? || s.Of(t).Registered? ==> s.server.phase[t].Serving?
    requires Apply(s, a).Of(t).Replied? || Apply(s, a).Of(t).Registered?
    ensures t in Apply(s, a).server.phase && Apply(s, a).server.phase[t].Serving?
  {
    assert AsRequested(s, t);
    if a.AckTunnel? && a.t.control == t.control {
      assert AsRequested(s, a.t);
    }
  }

  /** When every spec is registered, each tunnel has a port of its own. */
  lemma ServeBounds(s: Session)
    requires Requested(s) && Registry.PortsHeld(s.server) && AllKept(s) && Enabled(s, Serve)
    ensures s.server.count <= LAST_PORT
  {
    forall t | t in s.server.phase ensures s.server.Registered(t) {
      assert AsRequested(s, t);
      assert s.At(t.control, Registered);
    }
    Registry.NoMoreThanPorts(s.server);
  }

  lemma NoGrantWhileServing(s: Session, a: Action)
    requires Enabled(s, a) && Streamed(s) && s.serving
    ensures Apply(s, a).serving && Apply(s, a).server.count == s.server.count
  {
    assert a.Grant? ==> !s.At(a.t.control, Registered);
  }

  lemma KeptAlways(specs: seq<Spec>, ss: seq<Session>, acts: seq<Action>, i: nat)
    requires Runs.IsRun(Init(specs), EnabledKept, Apply, ss, acts) && i < |ss|
    ensures KeptInv(ss[i])
  {
    forall s, a | KeptInv(s) && EnabledKept(s, a) ensures KeptInv(Apply(s, a)) {
      StepInv(s, a);
      StepServerPorts(s, a);
      if s.serving {
        NoGrantWhileServing(s, a);
      } else if a.Serve? {
        ServeBounds(s);
      } else {
        StepKept(s, a);
      }
    }
    Runs.Always(Init(specs), EnabledKept, Apply, KeptInv, ss, acts, i);
  }

  /** In every interleaving in which no granted tunnel is released before the
      client serves - the client keeps every control stream open for the whole
      session - every data stream the server opens is relayed to exactly the
      local target and by exactly the transport its own spec asked for. There
      are then never more reservations than ports. */
  lemma DemultiplexesExactly(specs: seq<Spec>, ss: seq<Session>, acts: seq<Action>, i: nat, k: nat)
    requires Runs.IsRun(Init(specs), EnabledKept, Apply, ss, acts) && i < |ss|
    requires ss[i].serving && k < |ss[i].streams|
    ensures ss[i].server.count <= LAST_PORT
    ensures var t := ss[i].streams[k].t;
      && ss[i].specs == specs && t.control < |specs|
      && IsAsAsked(Dispatch(ss[i].tuns, ss[i].streams[k].bytes), specs[t.control])
      && (t.proto.Udp? <==> specs[t.control].proto == Named(Udp)) && t.target == specs[t.control].target
  {
    KeptAlways(specs, ss, acts, i);
    DemultiplexesWithinIds(specs, ss, acts, i, k);
  }

  // ---- in any run at all ----

  /** The spec whose AuthOK was the last one read with this id. */
  ghost function LastRead(ss: seq<Session>, acts: seq<Action>, id: Word, n: nat): Option<nat>
    requires n <= |acts| < |ss|
  {
    if n == 0 then None
    else if acts[n - 1].ReadReply? && ss[n - 1].At(acts[n - 1].i, Replied(id)) then Some(acts[n - 1].i)
    else LastRead(ss, acts, id, n - 1)
  }

  lemma TableStep(s: Session, a: Action, id: Word)
    requires Enabled(s, a) && |s.controls| == |s.specs|
    ensures Apply(s, a).specs == s.specs && |Apply(s, a).controls| == |s.specs|
    ensures a.ReadReply? && s.At(a.i, Replied(id)) ==>
      a.i < |s.specs| && id in Apply(s, a).tuns && Apply(s, a).tuns[id] == AsRemote(s.specs[a.i])
    ensures !(a.ReadReply? && s.At(a.i, Replied(id))) ==> (id in Apply(s, a).tuns <==> id in s.tuns)
    ensures !(a.ReadReply? && s.At(a.i, Replied(id))) && id in s.tuns ==> Apply(s, a).tuns[id] == s.tuns[id]
  {
  }

  lemma {:induction false} TableIsLastRead(specs: seq<Spec>, ss: seq<Session>, acts: seq<Action>, id: Word, n: nat)
    requires IsRun(specs, ss, acts) && n <= |acts|
    ensures ss[n].specs == specs && |ss[n].controls| == |specs|
    ensures id in ss[n].tuns <==> LastRead(ss, acts, id, n).Some?
    ensures id in ss[n].tuns ==>
      LastRead(ss, acts, id, n).value < |specs| && ss[n].tuns[id] == AsRemote(specs[LastRead(ss, acts, id, n).value])
  {
    if n == 0 {
    } else {
      TableIsLastRead(specs, ss, acts, id, n - 1);
      assert Enabled(ss[n - 1], acts[n - 1]) && ss[n - 1 + 1] == Apply(ss[n - 1], acts[n - 1]);
      TableStep(ss[n - 1], acts[n - 1], id);
    }
  }

  predicate SameRequest(x: Spec, y: Spec) {
    x.target == y.target && (x.proto == Named(Udp) <==> y.proto == Named(Udp))
  }

  /** Every registered tunnel's id is in the client's table, though perhaps for
      another tunnel. */
  ghost predicate HasEntries(s: Session) {
    forall t :: t in s.server.phase && s.Of(t).Registered? ==> t.id in s.tuns
  }

  lemma StepEntries(s: Session, a: Action)
    requires Enabled(s, a) && Inv(s) && HasEntries(s)
    ensures HasEntries(Apply(s, a))
  {
    var s' := Apply(s, a);
    forall t | t in s'.server.phase && s'.Of(t).Registered? ensures t.id in s'.tuns {
      if t in s.server.phase {
        assert AsRequested(s, t);
        assert s.Of(t).Registered? || (a.ReadReply? && a.i == t.control && s.Of(t).Replied?);
      }
    }
  }

  lemma EntriesAlways(specs: seq<Spec>, ss: seq<Session>, acts: seq<Action>, i: nat)
    requires IsRun(specs, ss, acts) && i < |ss|
    ensures Inv(ss[i]) && HasEntries(ss[i])
  {
    var inv := (s: Session) => Inv(s) && HasEntries(s);
    forall s, a | inv(s) && Enabled(s, a) ensures inv(Apply(s, a)) {
      StepInv(s, a);
      StepEntries(s, a);
    }
    Runs.Always(Init(specs), Enabled, Apply, inv, ss, acts, i);
  }

  /** In every run whatever: a data stream is relayed as its tunnel's spec asked
      for exactly when the spec of the last AuthOK read with that tunnel's id
      asked for the same target and transport. */
  lemma DemultiplexesIff(specs: seq<Spec>, ss: seq<Session>, acts: seq<Action>, i: nat, k: nat)
    requires IsRun(specs, ss, acts) && i < |ss|
    requires ss[i].serving && k < |ss[i].streams|
    ensures var t := ss[i].streams[k].t;
      && t.control < |specs|
      && LastRead(ss, acts, t.id, i).Some? && LastRead(ss, acts, t.id, i).value < |specs|
      && (IsAsAsked(Dispatch(ss[i].tuns, ss[i].streams[k].bytes), specs[t.control])
          <==> SameRequest(specs[LastRead(ss, acts, t.id, i).value], specs[t.control]))
  {
    var s, t := ss[i], ss[i].streams[k].t;
    EntriesAlways(specs, ss, acts, i);
    TableIsLastRead(specs, ss, acts, t.id, i);
    assert t in s.server.phase && AsRequested(s, t);
    assert s.At(t.control, Registered);
    assert s.streams[k].bytes == BigEndian(t.id) + s.streams[k].bytes[2..];
    TunnelIDRoundTrip(t.id, s.streams[k].bytes[2..]);
  }

  // ---- ids that wrap ----

  /** The specs of a client that asks for port 1, and then for port 2 with
      another target again and again. */
  function Hoard(n: nat): seq<Spec> {
    seq(n, i requires 0 <= i < n => Spec(Default, Registry.Hoarded(i).port, Registry.Hoarded(i).target))
  }

  /** The first `k` of its handshakes are through, and every tunnel but the
      first has been released again. */
  ghost predicate Underway(s: Session, n: nat, k: nat) {
    && k <= n && s.specs == Hoard(n) && |s.controls| == n && !s.serving && s.streams == []
    && (forall i :: 0 <= i < n ==> s.controls[i] == if i < k then Registered else Unopened)
    && Registry.Hoarding(s.server, k)
    && (k > 0 ==> s.server.In(Registry.Hoarded(0), Registry.Serving))
    && (k > 0 ==> Registry.NextID(k - 1) in s.tuns && s.tuns[Registry.NextID(k - 1)] == AsRemote(Hoard(n)[k - 1]))
  }

  /** The k-th handshake is through too, its tunnel not yet released. */
  ghost predicate Granted(s: Session, n: nat, k: nat) {
    && k < n && s.specs == Hoard(n) && |s.controls| == n && !s.serving && s.streams == []
    && (forall i :: 0 <= i < n ==> s.controls[i] == if i <= k then Registered else Unopened)
    && Registry.Holding(s.server, k)
    && s.server.In(Registry.Hoarded(0), Registry.Serving) && s.server.In(Registry.Hoarded(k), Registry.Serving)
    && Registry.NextID(k) in s.tuns && s.tuns[Registry.NextID(k)] == AsRemote(Hoard(n)[k])
    && (k == 0 ==> Registry.Hoarding(s.server, 1))
  }

  lemma HandshakeStep(s: Session, n: nat, k: nat, t: Tunnel) returns (s1: Session, s2: Session, s3: Session, s4: Session)
    requires Underway(s, n, k) && k < n && t == Registry.Hoarded(k)
    ensures Enabled(s, SendAuth(k)) && s1 == Apply(s, SendAuth(k))
    ensures Enabled(s1, Grant(t)) && s2 == Apply(s1, Grant(t))
    ensures Enabled(s2, Other(Registry.Open(t))) && s3 == Apply(s2, Other(Registry.Open(t)))
    ensures Enabled(s3, AckTunnel(t)) && s4 == Apply(s3, AckTunnel(t))
    ensures Enabled(s4, ReadReply(k)) && Granted(Apply(s4, ReadReply(k)), n, k)
  {
    s1 := Apply(s, SendAuth(k));
    Registry.HoardStep(s.server, k);
    s2 := Apply(s1, Grant(t));
    s3 := Apply(s2, Other(Registry.Open(t)));
    s4 := Apply(s3, AckTunnel(t));
  }

  lemma EarlyRelease(s: Session, n: nat, k: nat)
    requires Granted(s, n, k) && k > 0
    ensures Enabled(s, Other(Registry.Release(Registry.Hoarded(k))))
    ensures Underway(Apply(s, Other(Registry.Release(Registry.Hoarded(k)))), n, k + 1)
  {
    Registry.DropStep(s.server, k, Apply(s, Other(Registry.Release(Registry.Hoarded(k)))).server);
  }

  lemma {:induction false} HoardRun(n: nat, k: nat) returns (ss: seq<Session>, acts: seq<Action>)
    requires k <= n
    ensures IsRun(Hoard(n), ss, acts) && Underway(ss[|acts|], n, k)
  {
    if k == 0 {
      ss, acts := [Init(Hoard(n))], [];
    } else {
      ss, acts := HoardRun(n, k - 1);
      ss, acts := HoardNext(n, k - 1, ss, acts);
      if k > 1 {
        EarlyRelease(ss[|acts|], n, k - 1);
        ss, acts := Runs.Then(Init(Hoard(n)), Enabled, Apply, ss, acts, Other(Registry.Release(Registry.Hoarded(k - 1))));
      }
    }
  }

  lemma HoardNext(n: nat, k: nat, ss: seq<Session>, acts: seq<Action>) returns (ss': seq<Session>, acts': seq<Action>)
    requires k < n && IsRun(Hoard(n), ss, acts) && Underway(ss[|acts|], n, k)
    ensures IsRun(Hoard(n), ss', acts') && Granted(ss'[|acts'|], n, k)
  {
    var t := Registry.Hoarded(k);
    var s1, s2, s3, s4 := HandshakeStep(ss[|acts|], n, k, t);
    ss', acts' := Runs.Then(Init(Hoard(n)), Enabled, Apply, ss, acts, SendAuth(k));
    ss', acts' := Runs.Then(Init(Hoard(n)), Enabled, Apply, ss', acts', Grant(t));
    ss', acts' := Runs.Then(Init(Hoard(n)), Enabled, Apply, ss', acts', Other(Registry.Open(t)));
    ss', acts' := Runs.Then(Init(Hoard(n)), Enabled, Apply, ss', acts', AckTunnel(t));
    ss', acts' := Runs.Then(Init(Hoard(n)), Enabled, Apply, ss', acts', ReadReply(k));
  }

  lemma ServeHoard(n: nat) returns (ss: seq<Session>, acts: seq<Action>)
    requires n > 0
    ensures IsRun(Hoard(n), ss, acts) && ss[|acts|].server.count == n && ss[|acts|].serving
    ensures ss[|acts|].server.In(Registry.Hoarded(0), Registry.Serving)
    ensures ss[|acts|].streams == [Stream(Registry.Hoarded(0), BigEndian(Registry.NextID(0)))]
    ensures Registry.NextID(n - 1) in ss[|acts|].tuns && ss[|acts|].tuns[Registry.NextID(n - 1)] == AsRemote(Hoard(n)[n - 1])
  {
    ss, acts := HoardRun(n, n);
    ss, acts := Runs.Then(Init(Hoard(n)), Enabled, Apply, ss, acts, Serve);
    ss, acts := Runs.Then(Init(Hoard(n)), Enabled, Apply, ss, acts, OpenStream(Registry.Hoarded(0), []));
    assert BigEndian(Registry.NextID(0)) + [] == BigEndian(Registry.NextID(0));
  }

  /** A client that closes 65536 control streams before it serves can be misled:
      there is a run, on legal ports, in which a stream opened for the first
      tunnel, which is still served, is relayed to the target of the last one. */
  lemma DemuxTight() returns (specs: seq<Spec>, ss: seq<Session>, acts: seq<Action>)
    ensures IsRun(specs, ss, acts) && ss[|acts|].serving && ss[|acts|].server.count == |specs| == IDS + 1
    ensures forall i :: 0 <= i < |specs| ==> Registry.IsPort(specs[i].port)
    ensures |ss[|acts|].streams| == 1 && ss[|acts|].streams[0].t.control == 0
    ensures ss[|acts|].server.In(ss[|acts|].streams[0].t, Registry.Serving)
    ensures IsAsAsked(Dispatch(ss[|acts|].tuns, ss[|acts|].streams[0].bytes), specs[IDS])
    ensures !IsAsAsked(Dispatch(ss[|acts|].tuns, ss[|acts|].streams[0].bytes), specs[0])
  {
    var n := IDS + 1;
    specs := Hoard(n);
    ss, acts := ServeHoard(n);
    Registry.NextIDWraps(n - 1);
    var id := Registry.NextID(0);
    TunnelIDRoundTrip(id, []);
    assert BigEndian(id) + [] == BigEndian(id);
  }
}
