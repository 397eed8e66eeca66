// internal/client/quic.go: the table of peer-to-peer connections, and the
// frames and hellos on their streams.
module P2P {
  import opened Bytes
  import opened Codec
  import opened Streams
  import Runs

  // ---- wire helpers ----

  const MAX_FRAME := 65535
  const HELLO_BUFFER := 512

  /** writeFrame: the length is cut to two bytes. */
  function EncodeFrame(data: seq<Byte>): seq<Byte> {
    BigEndian(Truncate16(|data|)) + data
  }

  /** readFrame into a buffer: an empty or an oversized frame ends the stream. */
  function ParseFrame(s: seq<Byte>, capacity: nat): Parsed<seq<Byte>> {
    match TakeBytes(s, 2)
    case Failed(e) => Failed(e)
    case Parsed(hdr, rest) =>
      var n := FromBigEndian(hdr[0], hdr[1]);
      if n > capacity || n == 0 then Failed(Eof) else TakeBytes(rest, n)
  }

  method WriteFrame(w: Sink, data: seq<Byte>)
    modifies w
    ensures w.out == old(w.out) + EncodeFrame(data)
  {
    w.Write(BigEndian(Truncate16(|data|)) + data);
  }

  method ReadFrame(r: Source, buf: array<Byte>) returns (n: nat, err: Option<ReadError>)
    modifies r, buf
    ensures match ParseFrame(old(r.Bytes()), buf.Length)
      case Parsed(data, rest) => err == None && n == |data| <= buf.Length && buf[..n] == data && r.Bytes() == rest
      case Failed(e) => err == Some(e)
  {
    n := 0;
    var hdr := new Byte[2];
    err := r.ReadFull(hdr, 0, 2);
    if err != None {
      return;
    }
    n := FromBigEndian(hdr[0], hdr[1]);
    if n > buf.Length || n == 0 {
      return 0, Some(Eof);
    }
    err := r.ReadFull(buf, 0, n);
  }

  /** A frame comes back as written exactly when it is not empty and fits the
      reader's buffer; anything longer than 65535 bytes loses its length. */
  lemma FrameRoundTripIff(data: seq<Byte>, tail: seq<Byte>, capacity: nat)
    requires capacity <= MAX_FRAME
    ensures ParseFrame(EncodeFrame(data) + tail, capacity) == Parsed(data, tail) <==> 1 <= |data| <= capacity
  {
    var n := Truncate16(|data|);
    assert EncodeFrame(data) + tail == BigEndian(n) + (data + tail);
    TakePrefix(BigEndian(n), data + tail);
    if |data| <= MAX_FRAME {
      TakePrefix(data, tail);
    } else {
      assert n < |data|;
    }
  }

  datatype Hello = Hello(peerIP: seq<Byte>, myIP: seq<Byte>)

  function HelloData(h: Hello): seq<Byte> {
    [Truncate8(|h.peerIP|), Truncate8(|h.myIP|)] + h.peerIP + h.myIP
  }

  function ParseHelloData(data: seq<Byte>): Option<Hello> {
    if |data| < 2 then None
    else
      var alen: nat := data[0];
      var blen: nat := data[1];
      if alen + blen + 2 != |data| then None
      else Some(Hello(data[2..2 + alen], data[2 + alen..]))
  }

  /** readHello: a frame of at most 512 bytes, then the two lengths must add up. */
  function ParseHello(s: seq<Byte>): Option<Hello> {
    match ParseFrame(s, HELLO_BUFFER)
    case Failed(_) => None
    case Parsed(data, _) => ParseHelloData(data)
  }

  method WriteHello(w: Sink, h: Hello)
    modifies w
    ensures w.out == old(w.out) + EncodeFrame(HelloData(h))
  {
    WriteFrame(w, HelloData(h));
  }

  method ReadHello(r: Source) returns (h: Option<Hello>)
    modifies r
    ensures h == ParseHello(old(r.Bytes()))
  {
    var buf := new Byte[HELLO_BUFFER];
    var n, err := ReadFrame(r, buf);
    if err != None {
      return None;
    }
    ghost var data := buf[..n];
    if n < 2 {
      return None;
    }
    var alen: nat := buf[0];
    var blen: nat := buf[1];
    assert data[0] == buf[0] && data[1] == buf[1];
    if alen + blen + 2 != n {
      return None;
    }
    assert data[2..2 + alen] == buf[2..2 + alen] && data[2 + alen..] == buf[2 + alen..n];
    h := Some(Hello(buf[2..2 + alen], buf[2 + alen..2 + alen + blen]));
  }

  /** A hello comes back as written exactly when both addresses have at most
      255 bytes. */
  lemma HelloRoundTripIff(h: Hello, tail: seq<Byte>)
    ensures ParseHello(EncodeFrame(HelloData(h)) + tail) == Some(h) <==> |h.peerIP| <= 255 && |h.myIP| <= 255
  {
    var data := HelloData(h);
    if |data| <= HELLO_BUFFER {
      FrameRoundTripIff(data, tail, HELLO_BUFFER);
      assert data[2..2 + |h.peerIP|] == h.peerIP && data[2 + |h.peerIP|..] == h.myIP;
    } else {
      assert |h.peerIP| > 255 || |h.myIP| > 255;
      match ParseHello(EncodeFrame(data) + tail)
      case None =>
      case Some(g) =>
        assert |g.peerIP| <= 255 && |g.myIP| <= 255;
    }
  }

  /** Two bytes of length, the high one first; in a hello the two lengths, then
      the address dialled and the own one. */
  lemma FrameLayout(data: seq<Byte>, h: Hello)
    ensures |data| <= 65535 ==> EncodeFrame(data) == [|data| / 256, |data| % 256] + data
    ensures |h.peerIP| <= 255 && |h.myIP| <= 255 ==> HelloData(h) == [|h.peerIP|, |h.myIP|] + h.peerIP + h.myIP
  {
  }

  // ---- the table, in any interleaving ----

  const REAP_AFTER := 90_000_000_000   // nanoseconds

  datatype Conn = Conn(ip: string, lastSeen: int, closed: bool)

  /** A Route that has looked its connection up and not yet written to it. */
  datatype Pending = Pending(ip: string, c: nat)

  datatype State = State(
    conns: map<string, nat>,
    all: map<nat, Conn>,          // every connection ever registered
    routes: map<nat, Pending>)
  {
    predicate Current(c: nat) {
      c in all && all[c].ip in conns && conns[all[c].ip] == c
    }

    function Evicted(ip: string): State {
      if ip in conns && conns[ip] in all
      then this.(conns := conns - {ip}, all := all[conns[ip] := all[conns[ip]].(closed := true)])
      else this
    }

    /** The entries a reap pass at `now` drops. */
    predicate Idle(now: int, ip: string) {
      ip in conns && conns[ip] in all && now - all[conns[ip]].lastSeen > REAP_AFTER
    }

    predicate IsOpen(c: nat) {
      c in all && !all[c].closed
    }
  }

  datatype Action =
    | Register(ip: string, c: nat, now: int)
    | Evict(ip: string)
    | Lookup(r: nat, ip: string)            // Route finds an entry, and drops the lock
    | RouteSucceeds(r: nat, now: int)       // its write succeeds
    | RouteFails(r: nat)                    // or fails, and the address is evicted
    | Reap(now: int)
    | Stop

  function Init(): State {
    State(map[], map[], map[])
  }

  predicate Enabled(s: State, a: Action) {
    match a
    case Register(_, c, _) => c !in s.all
    case Lookup(r, ip) => r !in s.routes && ip in s.conns
    case RouteSucceeds(r, _) => r in s.routes
    case RouteFails(r) => r in s.routes
    case _ => true
  }

  function Apply(s: State, a: Action): State {
    match a
    case Register(ip, c, now) =>
      var s1 := s.Evicted(ip);
      s1.(conns := s1.conns[ip := c], all := s1.all[c := Conn(ip, now, false)])
    case Evict(ip) => s.Evicted(ip)
    case Lookup(r, ip) => if ip in s.conns then s.(routes := s.routes[r := Pending(ip, s.conns[ip])]) else s
    case RouteSucceeds(r, now) =>
      if r in s.routes && s.routes[r].c in s.all
      then s.(all := s.all[s.routes[r].c := s.all[s.routes[r].c].(lastSeen := now)], routes := s.routes - {r})
      else s
    case RouteFails(r) => if r in s.routes then s.Evicted(s.routes[r].ip).(routes := s.routes - {r}) else s
    case Reap(now) =>
      s.(conns := map ip | ip in s.conns && !s.Idle(now, ip) :: s.conns[ip],
         all := map c | c in s.all :: if s.Current(c) && s.Idle(now, s.all[c].ip) then s.all[c].(closed := true) else s.all[c])
    case Stop =>
      s.(all := map c | c in s.all :: if s.Current(c) then s.all[c].(closed := true) else s.all[c])
  }

  ghost predicate Inv(s: State) {
    && (forall ip :: ip in s.conns ==> s.conns[ip] in s.all && s.all[s.conns[ip]].ip == ip)
    && (forall c :: c in s.all ==> s.Current(c) || s.all[c].closed)
    && (forall r :: r in s.routes ==> s.routes[r].c in s.all && s.all[s.routes[r].c].ip == s.routes[r].ip)
  }

  lemma StepEntries(s: State, a: Action, ip: string)
    requires Inv(s) && Enabled(s, a) && ip in Apply(s, a).conns
    ensures Apply(s, a).conns[ip] in Apply(s, a).all && Apply(s, a).all[Apply(s, a).conns[ip]].ip == ip
  {
  }

  lemma StepConserved(s: State, a: Action, c: nat)
    requires Inv(s) && Enabled(s, a) && c in Apply(s, a).all
    ensures Apply(s, a).Current(c) || Apply(s, a).all[c].closed
  {
  }

  lemma StepRoutes(s: State, a: Action, r: nat)
    requires Inv(s) && Enabled(s, a) && r in Apply(s, a).routes
    ensures Apply(s, a).routes[r].c in Apply(s, a).all
    ensures Apply(s, a).all[Apply(s, a).routes[r].c].ip == Apply(s, a).routes[r].ip
  {
  }

  lemma StepInv(s: State, a: Action)
    requires Inv(s) && Enabled(s, a)
    ensures Inv(Apply(s, a))
  {
    var s' := Apply(s, a);
    forall ip | ip in s'.conns ensures s'.conns[ip] in s'.all && s'.all[s'.conns[ip]].ip == ip {
      StepEntries(s, a, ip);
    }
    forall c | c in s'.all ensures s'.Current(c) || s'.all[c].closed {
      StepConserved(s, a, c);
    }
    forall r | r in s'.routes ensures s'.routes[r].c in s'.all && s'.all[s'.routes[r].c].ip == s'.routes[r].ip {
      StepRoutes(s, a, r);
    }
  }

  lemma InvAlways(ss: seq<State>, acts: seq<Action>, i: nat)
    requires Runs.IsRun(Init(), Enabled, Apply, ss, acts) && i < |ss|
    ensures Inv(ss[i])
  {
    forall s, a | Inv(s) && Enabled(s, a) ensures Inv(Apply(s, a)) {
      StepInv(s, a);
    }
    Runs.Always(Init(), Enabled, Apply, Inv, ss, acts, i);
  }

  /** In every interleaving, each connection ever registered is the current
      entry for its address, or has been closed. */
  lemma Conservation(ss: seq<State>, acts: seq<Action>, i: nat)
    requires Runs.IsRun(Init(), Enabled, Apply, ss, acts) && i < |ss|
    ensures forall c :: c in ss[i].all ==> ss[i].Current(c) || ss[i].all[c].closed
    ensures forall ip :: ip in ss[i].conns ==> ss[i].Current(ss[i].conns[ip]) && ss[i].all[ss[i].conns[ip]].ip == ip
  {
    InvAlways(ss, acts, i);
  }

  /** When a connection was last registered or written to with success. */
  ghost function SeenAt(ss: seq<State>, acts: seq<Action>, c: nat, n: nat): Option<int>
    requires n <= |acts| < |ss|
  {
    if n == 0 then None
    else match acts[n - 1]
      case Register(_, d, now) => if d == c then Some(now) else SeenAt(ss, acts, c, n - 1)
      case RouteSucceeds(r, now) =>
        if r in ss[n - 1].routes && ss[n - 1].routes[r].c == c then Some(now) else SeenAt(ss, acts, c, n - 1)
      case _ => SeenAt(ss, acts, c, n - 1)
  }

  lemma StepSeen(s: State, a: Action, c: nat)
    requires Inv(s) && Enabled(s, a)
    ensures c in Apply(s, a).all <==> c in s.all || (a.Register? && a.c == c)
    ensures (a.Register? && a.c == c) || (a.RouteSucceeds? && s.routes[a.r].c == c) ==> Apply(s, a).all[c].lastSeen == a.now
    ensures c in s.all && !(a.RouteSucceeds? && s.routes[a.r].c == c) ==> Apply(s, a).all[c].lastSeen == s.all[c].lastSeen
  {
  }

  /** In every run, lastSeen is the time of the last registration of, or
      successful write to, that connection. */
  lemma {:induction false} LastSeenExact(ss: seq<State>, acts: seq<Action>, c: nat, n: nat)
    requires Runs.IsRun(Init(), Enabled, Apply, ss, acts) && n <= |acts|
    ensures c in ss[n].all <==> SeenAt(ss, acts, c, n).Some?
    ensures c in ss[n].all ==> ss[n].all[c].lastSeen == SeenAt(ss, acts, c, n).value
  {
    if n == 0 {
    } else {
      LastSeenExact(ss, acts, c, n - 1);
      InvAlways(ss, acts, n - 1);
      assert Enabled(ss[n - 1], acts[n - 1]) && ss[n - 1 + 1] == Apply(ss[n - 1], acts[n - 1]);
      StepSeen(ss[n - 1], acts[n - 1], c);
    }
  }

  /** A reap pass keeps exactly the entries seen at most 90 seconds ago, and
      closes exactly the others. */
  lemma ReapPass(s: State, now: int)
    requires Inv(s)
    ensures var s' := Apply(s, Reap(now));
      && (forall ip :: ip in s'.conns <==> ip in s.conns && now - s.all[s.conns[ip]].lastSeen <= 90_000_000_000)
      && (forall ip :: ip in s'.conns ==> s'.conns[ip] == s.conns[ip] && s'.all[s'.conns[ip]] == s.all[s.conns[ip]])
      && (forall c :: c in s.all && !s.all[c].closed ==> (s'.all[c].closed <==> now - s.all[c].lastSeen > 90_000_000_000))
  {
    assert forall c :: c in s.all && !s.all[c].closed ==> s.Current(c);
  }

  /** In every run a reap pass keeps exactly the entries registered, or written
      to with success, at most 90 seconds before, and closes exactly the other
      connections. */
  lemma ReapExact(ss: seq<State>, acts: seq<Action>, i: nat, ip: string, c: nat)
    requires Runs.IsRun(Init(), Enabled, Apply, ss, acts) && i < |acts| && acts[i].Reap?
    ensures ip in ss[i].conns ==> SeenAt(ss, acts, ss[i].conns[ip], i).Some?
    ensures ip in ss[i + 1].conns <==>
      ip in ss[i].conns && acts[i].now - SeenAt(ss, acts, ss[i].conns[ip], i).value <= 90_000_000_000
    ensures ip in ss[i + 1].conns ==> ss[i + 1].conns[ip] == ss[i].conns[ip]
    ensures ss[i].IsOpen(c) ==> SeenAt(ss, acts, c, i).Some?
    ensures ss[i + 1].IsOpen(c) <==> ss[i].IsOpen(c) && acts[i].now - SeenAt(ss, acts, c, i).value <= 90_000_000_000
  {
    InvAlways(ss, acts, i);
    assert Enabled(ss[i], acts[i]) && ss[i + 1] == Apply(ss[i], acts[i]);
    if ip in ss[i].conns {
      LastSeenExact(ss, acts, ss[i].conns[ip], i);
    }
    LastSeenExact(ss, acts, c, i);
    ReapPass(ss[i], acts[i].now);
  }

  /** What closes an open connection: another registration of its address, the
      eviction of its address, also by a failed write, a reap pass that finds it
      idle, and the stop. Nothing else does, and nothing opens it again. */
  ghost predicate Closes(s: State, a: Action, c: nat)
    requires c in s.all
  {
    match a
    case Register(ip, _, _) => ip == s.all[c].ip
    case Evict(ip) => ip == s.all[c].ip
    case RouteFails(r) => r in s.routes && s.routes[r].ip == s.all[c].ip
    case Reap(now) => now - s.all[c].lastSeen > 90_000_000_000
    case Stop => true
    case _ => false
  }

  /** And what takes the entry of an address out of the table, or replaces it. */
  ghost predicate Removes(s: State, a: Action, ip: string)
    requires ip in s.conns && s.conns[ip] in s.all
  {
    match a
    case Register(k, _, _) => k == ip
    case Evict(k) => k == ip
    case RouteFails(r) => r in s.routes && s.routes[r].ip == ip
    case Reap(now) => now - s.all[s.conns[ip]].lastSeen > 90_000_000_000
    case _ => false
  }

  lemma EntryExactly(ss: seq<State>, acts: seq<Action>, i: nat, ip: string, c: nat)
    requires Runs.IsRun(Init(), Enabled, Apply, ss, acts) && i < |acts|
    ensures ip in ss[i].conns ==> ss[i].conns[ip] in ss[i].all
    ensures ip in ss[i + 1].conns && ss[i + 1].conns[ip] == c <==>
      || (acts[i].Register? && acts[i].ip == ip && acts[i].c == c)
      || (ip in ss[i].conns && ss[i].conns[ip] == c && !Removes(ss[i], acts[i], ip))
  {
    InvAlways(ss, acts, i);
    assert Enabled(ss[i], acts[i]) && ss[i + 1] == Apply(ss[i], acts[i]);
  }

  lemma OpenExactly(ss: seq<State>, acts: seq<Action>, i: nat, c: nat)
    requires Runs.IsRun(Init(), Enabled, Apply, ss, acts) && i < |acts|
    ensures ss[i + 1].IsOpen(c) <==>
      (acts[i].Register? && acts[i].c == c) || (ss[i].IsOpen(c) && !Closes(ss[i], acts[i], c))
  {
    InvAlways(ss, acts, i);
    assert Enabled(ss[i], acts[i]) && ss[i + 1] == Apply(ss[i], acts[i]);
    assert ss[i].IsOpen(c) ==> ss[i].Current(c);
  }

  /** A failed write evicts by address. In every run, it closes a connection
      other than the one written to exactly when that other one is by now the
      table's entry for the address. */
  lemma RouteFailureHitsReplacementIff(ss: seq<State>, acts: seq<Action>, i: nat, d: nat)
    requires Runs.IsRun(Init(), Enabled, Apply, ss, acts) && i < |acts| && acts[i].RouteFails?
    ensures acts[i].r in ss[i].routes
    ensures var p := ss[i].routes[acts[i].r];
      ss[i].IsOpen(d) && d != p.c && !ss[i + 1].IsOpen(d) <==>
        p.ip in ss[i].conns && ss[i].conns[p.ip] == d && d != p.c && ss[i].IsOpen(d)
  {
    InvAlways(ss, acts, i);
    assert Enabled(ss[i], acts[i]) && ss[i + 1] == Apply(ss[i], acts[i]);
  }

  /** Only a registration changes the entry of an address to another one. */
  lemma {:induction false} ReplacedByRegister(ss: seq<State>, acts: seq<Action>, i: nat, j: nat, ip: string)
      returns (k: nat)
    requires Runs.IsRun(Init(), Enabled, Apply, ss, acts) && i <= j < |ss|
    requires ip in ss[i].conns && ip in ss[j].conns && ss[i].conns[ip] != ss[j].conns[ip]
    ensures i <= k < j && acts[k].Register? && acts[k].ip == ip && acts[k].c == ss[j].conns[ip]
    decreases j
  {
    assert Enabled(ss[j - 1], acts[j - 1]) && ss[j - 1 + 1] == Apply(ss[j - 1], acts[j - 1]);
    if acts[j - 1].Register? && acts[j - 1].ip == ip {
      k := j - 1;
    } else {
      assert ip in ss[j - 1].conns && ss[j - 1].conns[ip] == ss[j].conns[ip];
      k := ReplacedByRegister(ss, acts, i, j - 1, ip);
    }
  }

  lemma {:induction false} LookedUp(ss: seq<State>, acts: seq<Action>, i: nat, r: nat) returns (j: nat)
    requires Runs.IsRun(Init(), Enabled, Apply, ss, acts) && i < |ss| && r in ss[i].routes
    ensures j < i && acts[j] == Lookup(r, ss[i].routes[r].ip)
    ensures ss[i].routes[r].ip in ss[j].conns && ss[j].conns[ss[i].routes[r].ip] == ss[i].routes[r].c
  {
    assert Enabled(ss[i - 1], acts[i - 1]) && ss[i - 1 + 1] == Apply(ss[i - 1], acts[i - 1]);
    if acts[i - 1].Lookup? && acts[i - 1].r == r {
      j := i - 1;
    } else {
      j := LookedUp(ss, acts, i - 1, r);
    }
  }

  /** And then it was registered there between the route's lookup and its failure. */
  lemma HitReplacementIsRecent(ss: seq<State>, acts: seq<Action>, i: nat, d: nat) returns (j: nat, k: nat)
    requires Runs.IsRun(Init(), Enabled, Apply, ss, acts) && i < |acts| && acts[i].RouteFails?
    requires acts[i].r in ss[i].routes && d != ss[i].routes[acts[i].r].c && ss[i].IsOpen(d) && !ss[i + 1].IsOpen(d)
    ensures j < k < i && acts[j] == Lookup(acts[i].r, ss[i].routes[acts[i].r].ip)
    ensures acts[k].Register? && acts[k].ip == ss[i].routes[acts[i].r].ip && acts[k].c == d
  {
    RouteFailureHitsReplacementIff(ss, acts, i, d);
    j := LookedUp(ss, acts, i, acts[i].r);
    k := ReplacedByRegister(ss, acts, j, i, ss[i].routes[acts[i].r].ip);
  }

  /** The run in which it happens: the connection a route has looked up is
      replaced before the write fails, and the healthy replacement is closed. */
  lemma RouteFailureHitsReplacement() returns (ss: seq<State>, acts: seq<Action>)
    ensures Runs.IsRun(Init(), Enabled, Apply, ss, acts)
    ensures acts == [Register("a", 0, 0), Lookup(0, "a"), Register("a", 1, 0), RouteFails(0)]
    ensures ss[3].IsOpen(1) && ss[3].conns == map["a" := 1]
    ensures !ss[4].IsOpen(1) && ss[4].conns == map[]
  {
    ss, acts := [Init()], [];
    ss, acts := Runs.Then(Init(), Enabled, Apply, ss, acts, Register("a", 0, 0));
    ss, acts := Runs.Then(Init(), Enabled, Apply, ss, acts, Lookup(0, "a"));
    ss, acts := Runs.Then(Init(), Enabled, Apply, ss, acts, Register("a", 1, 0));
    assert ss[3].conns == map["a" := 1];
    ss, acts := Runs.Then(Init(), Enabled, Apply, ss, acts, RouteFails(0));
  }

  // ---- the table as the program keeps it ----

  class P2PConn {
    const id: nat         // stands for the pointer
    const ip: string
    var lastSeen: int
    var open: bool

    constructor (id: nat, ip: string, now: int)
      ensures this.id == id && this.ip == ip && lastSeen == now && open
    {
      this.id, this.ip := id, ip;
      lastSeen, open := now, true;
    }
  }

  class P2PManager {
    var conns: map<string, P2PConn>
    ghost var all: map<nat, P2PConn>     // every connection ever registered

    ghost predicate Valid()
      reads this
    {
      && ByAddress()
      && (forall ip :: ip in conns ==> conns[ip].id in all && all[conns[ip].id] == conns[ip])
      && (forall c :: c in all ==> all[c].id == c)
    }

    ghost predicate ByAddress()
      reads this
    {
      forall ip :: ip in conns ==> conns[ip].ip == ip
    }

    /** The table is in state `s` of the machine above. */
    ghost predicate Shows(s: State)
      reads this, all.Values
    {
      && conns.Keys == s.conns.Keys && (forall ip :: ip in conns ==> conns[ip].id == s.conns[ip])
      && all.Keys == s.all.Keys && (forall c :: c in all ==> Conn(all[c].ip, all[c].lastSeen, !all[c].open) == s.all[c])
    }

    constructor ()
      ensures Valid() && Shows(Init())
    {
      conns, all := map[], map[];
    }

    method CloseEntry(ip: string, ghost s: State)
      requires Valid() && Shows(s)
      modifies conns.Values`open
      ensures Valid() && Shows(s.Evicted(ip).(conns := s.conns))
    {
      if ip in conns {
        conns[ip].open := false;
      }
    }

    method Enter(id: nat, ip: string, now: int, ghost s: State) returns (c: P2PConn)
      requires Valid() && Shows(s) && id !in all
      modifies this
      ensures Valid() && fresh(c) && all == old(all)[id := c] && conns == old(conns)[ip := c]
      ensures Shows(s.(conns := s.conns[ip := id], all := s.all[id := Conn(ip, now, false)]))
    {
      c := new P2PConn(id, ip, now);
      conns, all := conns[ip := c], all[id := c];
    }

    method Register(id: nat, ip: string, now: int, ghost s: State) returns (c: P2PConn)
      requires Valid() && Shows(s) && id !in all
      modifies this, conns.Values`open
      ensures Valid() && fresh(c) && all == old(all)[id := c] && conns == old(conns)[ip := c]
      ensures Shows(Apply(s, Action.Register(ip, id, now)))
    {
      CloseEntry(ip, s);
      c := Enter(id, ip, now, s.Evicted(ip).(conns := s.conns));
    }

    method Evict(ip: string, ghost s: State)
      requires Valid() && Shows(s)
      modifies this`conns, conns.Values`open
      ensures Valid() && conns == old(conns) - {ip}
      ensures Shows(Apply(s, Action.Evict(ip)))
    {
      if ip in conns {
        conns[ip].open := false;
      }
      conns := conns - {ip};
    }

    /** Route's first half, under the lock. */
    method LookUp(ip: string, ghost r: nat, ghost s: State) returns (c: Option<P2PConn>)
      requires Valid() && Shows(s) && r !in s.routes
      ensures c == if ip in conns then Some(conns[ip]) else None
      ensures c.Some? ==> Shows(Apply(s, Lookup(r, ip))) && Apply(s, Lookup(r, ip)).routes[r] == Pending(ip, c.value.id)
    {
      c := if ip in conns then Some(conns[ip]) else None;
    }

    /** And its second half, once the write to the connection found is over. */
    method FinishRoute(c: P2PConn, ip: string, written: bool, now: int, ghost r: nat, ghost s: State)
      requires Valid() && Shows(s) && c.id in all && all[c.id] == c && r in s.routes && s.routes[r] == Pending(ip, c.id)
      modifies this`conns, conns.Values`open, c`lastSeen
      ensures Valid() && Shows(Apply(s, if written then RouteSucceeds(r, now) else RouteFails(r)))
    {
      if written {
        c.lastSeen := now;
      } else {
        Evict(ip, s);
      }
    }

    /** The reap loop's turn for one entry. */
    method ReapOne(ip: string, now: int)
      requires ByAddress() && ip in conns
      modifies this`conns, conns.Values`open
      ensures ByAddress()
      ensures conns == if now - old(conns)[ip].lastSeen <= REAP_AFTER then old(conns) else old(conns) - {ip}
      ensures forall k :: k in old(conns) ==>
        old(conns)[k].open == (old(conns[k].open) && (k != ip || now - old(conns)[k].lastSeen <= REAP_AFTER))
    {
      var c := conns[ip];
      assert forall k :: k in conns && k != ip ==> conns[k] != c;
      if now - c.lastSeen > REAP_AFTER {
        c.open := false;
        conns := conns - {ip};
      }
    }

    /** One pass of the reap loop. */
    method ReapAll(now: int)
      requires ByAddress()
      modifies this`conns, conns.Values`open
      ensures ByAddress()
      ensures forall k :: k in conns <==> k in old(conns) && now - old(conns)[k].lastSeen <= REAP_AFTER
      ensures forall k :: k in conns ==> conns[k] == old(conns)[k]
      ensures forall k :: k in old(conns) ==>
        old(conns)[k].open == (old(conns[k].open) && now - old(conns)[k].lastSeen <= REAP_AFTER)
    {
      var left := conns.Keys;
      while left != {}
        invariant ByAddress() && left <= conns.Keys
        invariant forall k :: k in conns ==> k in old(conns) && conns[k] == old(conns)[k]
        invariant forall k :: k in old(conns) ==> k in left || (k in conns <==> now - old(conns)[k].lastSeen <= REAP_AFTER)
        invariant forall k :: k in old(conns) ==>
          old(conns)[k].open == (old(conns[k].open) && (k in left || now - old(conns)[k].lastSeen <= REAP_AFTER))
        decreases left
      {
        var ip :| ip in left;
        ReapOne(ip, now);
        left := left - {ip};
      }
    }

    method Reap(now: int, ghost s: State)
      requires Valid() && Shows(s)
      modifies this`conns, conns.Values`open
      ensures Valid() && Shows(Apply(s, Action.Reap(now)))
    {
      assert forall ip :: ip in conns ==> (s.Idle(now, ip) <==> now - conns[ip].lastSeen > REAP_AFTER);
      ReapAll(now);
    }

    /** Close everything; the entries stay. */
    method Stop(ghost s: State)
      requires Valid() && Shows(s)
      modifies conns.Values`open
      ensures Valid() && Shows(Apply(s, Action.Stop))
    {
      var left := conns.Keys;
      while left != {}
        invariant left <= conns.Keys
        invariant forall k :: k in conns ==> conns[k].open == (old(conns[k].open) && k in left)
        decreases left
      {
        var ip :| ip in left;
        conns[ip].open := false;
        left := left - {ip};
      }
    }
  }
}
