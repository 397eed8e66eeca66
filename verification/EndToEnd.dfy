// The hub with its peers' read loops (internal/server/vpn.go:131-167): bytes
// arrive on the packet streams in chunks of any size, each stream's loop reads
// one packet at a time, and routes it.
module EndToEnd {
  import opened Bytes
  import opened Codec
  import opened Packets
  import opened Rooms
  import Hub
  import Runs

  /** A packet stream in the direction from the peer, and its read loop. */
  datatype Reader = Reader(
    owner: Member,
    arrived: seq<Byte>,      // history: all bytes so far
    unread: seq<Byte>,
    read: seq<Packet>)       // history: all packets so far

  /** One packet handed to route, by the loop of stream `id`. */
  datatype Sending = Sending(id: nat, from: Member, pkt: Packet)

  datatype State = State(
    hub: Hub.State,
    readers: map<nat, Reader>,      // every stream ever attached
    log: seq<Sending>,              // history: what was routed, in order
    since: map<Member, nat>)        // history: how long the log was when the peer's stream was attached

  datatype Action =
    | Join(a: Hub.Action)             // a grant, a refusal or a release
    | Attach(m: Member, id: nat)
    | Arrive(id: nat, bytes: seq<Byte>)
    | ReadOne(id: nat)

  function Init(): State {
    State(Hub.Init(), map[], [], map[])
  }

  ghost predicate Enabled(s: State, a: Action) {
    match a
    case Join(b) => !b.Attach? && !b.Route? && Hub.Enabled(s.hub, b)
    case Attach(m, id) => s.hub.Owns(m.conn, m) && id !in s.readers
    case Arrive(id, _) => id in s.readers
    case ReadOne(id) => id in s.readers && ParsePacket(s.readers[id].unread).Parsed?
  }

  ghost function Apply(s: State, a: Action): State {
    match a
    case Join(b) => s.(hub := Hub.Apply(s.hub, b))
    case Attach(m, id) =>
      s.(hub := Hub.Apply(s.hub, Hub.Attach(m.conn)), readers := s.readers[id := Reader(m, [], [], [])],
         since := s.since[m := |s.log|])
    case Arrive(id, bytes) =>
      if id !in s.readers then s
      else
        var r := s.readers[id];
        s.(readers := s.readers[id := r.(arrived := r.arrived + bytes, unread := r.unread + bytes)])
    case ReadOne(id) =>
      if id !in s.readers || ParsePacket(s.readers[id].unread).Failed? then s
      else Routed(s, id, ParsePacket(s.readers[id].unread).value, ParsePacket(s.readers[id].unread).rest)
  }

  /** A loop has read one packet, and routes it if there is anything in it. */
  ghost function Routed(s: State, id: nat, pkt: Packet, rest: seq<Byte>): State
    requires id in s.readers
  {
    var r := s.readers[id];
    var s1 := s.(readers := s.readers[id := r.(unread := rest, read := r.read + [pkt])]);
    if pkt == [] then s1
    else s1.(hub := Hub.Apply(s.hub, Hub.Route(r.owner, pkt)), log := s.log + [Sending(id, r.owner, pkt)])
  }

  // ---- what the histories say ----

  /** The simple specification of who a routed packet is for. */
  predicate IsMeant(home: map<Member, string>, x: Sending, m: Member) {
    x.from in home && m in home && home[x.from] == home[m] && IsFor(x.pkt, x.from, m)
  }

  /** The packets of a log that are for `m`, in order. */
  function MeantFor(home: map<Member, string>, log: seq<Sending>, m: Member): seq<Packet> {
    if log == [] then []
    else
      var last := log[|log| - 1];
      MeantFor(home, log[..|log| - 1], m) + if IsMeant(home, last, m) then [last.pkt] else []
  }

  /** The packets of a log that stream `id` has sent, in order. */
  function SentBy(log: seq<Sending>, id: nat): seq<Packet> {
    if log == [] then []
    else SentBy(log[..|log| - 1], id) + if log[|log| - 1].id == id then [log[|log| - 1].pkt] else []
  }

  lemma MeantForGrows(home: map<Member, string>, log: seq<Sending>, x: Sending, m: Member)
    ensures MeantFor(home, log + [x], m) == MeantFor(home, log, m) + if IsMeant(home, x, m) then [x.pkt] else []
  {
    assert (log + [x])[..|log|] == log;
  }

  lemma SentByGrows(log: seq<Sending>, x: Sending, id: nat)
    ensures SentBy(log + [x], id) == SentBy(log, id) + if x.id == id then [x.pkt] else []
  {
    assert (log + [x])[..|log|] == log;
  }

  lemma {:induction false} MeantForSame(home: map<Member, string>, home': map<Member, string>, log: seq<Sending>, m: Member)
    requires m in home && m in home' && home'[m] == home[m]
    requires forall k :: 0 <= k < |log| ==> log[k].from in home && log[k].from in home' && home'[log[k].from] == home[log[k].from]
    ensures MeantFor(home', log, m) == MeantFor(home, log, m)
  {
    if log == [] {
    } else {
      MeantForSame(home, home', log[..|log| - 1], m);
    }
  }

  lemma {:induction false} NonEmptySnoc(pkts: seq<Packet>, pkt: Packet)
    ensures NonEmpty(pkts + [pkt]) == NonEmpty(pkts) + if pkt == [] then [] else [pkt]
  {
    if pkts == [] {
      assert pkts + [pkt] == [pkt];
    } else {
      assert (pkts + [pkt])[1..] == pkts[1..] + [pkt];
      NonEmptySnoc(pkts[1..], pkt);
    }
  }

  lemma {:induction false} MeantForFits(home: map<Member, string>, log: seq<Sending>, m: Member)
    requires forall k :: 0 <= k < |log| ==> Fits(log[k].pkt)
    ensures AllOk(Fits, MeantFor(home, log, m))
  {
    if log == [] {
    } else {
      MeantForFits(home, log[..|log| - 1], m);
    }
  }

  // ---- invariant ----

  /** A stream's bytes are its packets so far and what is unread, and what was
      routed of it are its packets with content. */
  ghost predicate ReaderOk(r: Reader, id: nat, log: seq<Sending>) {
    && AllOk(Fits, r.read)
    && r.arrived == EncodeAll(EncodePacket, r.read) + r.unread
    && NonEmpty(r.read) == SentBy(log, id)
  }

  /** What was written to a stream attached when the log had length `since`. */
  ghost predicate WrittenOk(written: seq<Byte>, home: map<Member, string>, log: seq<Sending>, since: nat, m: Member) {
    since <= |log| && written == EncodeAll(EncodePacket, MeantFor(home, log[since..], m))
  }

  ghost predicate Listening(h: Hub.State, m: Member) {
    m in h.lines && h.InRoom(m) && h.lines[m].stream.Some?
  }

  ghost predicate StreamOk(s: State, m: Member) {
    Listening(s.hub, m) ==> m in s.since && WrittenOk(s.hub.lines[m].stream.value, s.hub.home, s.log, s.since[m], m)
  }

  /** Whoever has sent anything was granted. */
  ghost predicate LogOk(log: seq<Sending>, home: map<Member, string>) {
    forall k :: 0 <= k < |log| ==> log[k].from in home && Fits(log[k].pkt)
  }

  ghost predicate ReadersOk(s: State) {
    && (forall id :: id in s.readers ==> s.readers[id].owner in s.hub.home && ReaderOk(s.readers[id], id, s.log))
    && (forall k :: 0 <= k < |s.log| ==> s.log[k].id in s.readers)
  }

  ghost predicate StreamsOk(s: State) {
    forall m :: StreamOk(s, m)
  }

  ghost predicate Reachable(h: Hub.State) {
    Runs.Reachable(Hub.Init(), Hub.Enabled, Hub.Apply, h)
  }

  ghost predicate Inv(s: State) {
    Reachable(s.hub) && LogOk(s.log, s.hub.home) && ReadersOk(s) && StreamsOk(s)
  }

  ghost predicate Extends(home: map<Member, string>, home': map<Member, string>) {
    forall m :: m in home ==> m in home' && home'[m] == home[m]
  }

  lemma WrittenKept(written: seq<Byte>, home: map<Member, string>, home': map<Member, string>, log: seq<Sending>, since: nat, m: Member)
    requires WrittenOk(written, home, log, since, m) && LogOk(log, home) && Extends(home, home') && m in home
    ensures WrittenOk(written, home', log, since, m)
  {
    MeantForSame(home, home', log[since..], m);
  }

  lemma WrittenGrows(written: seq<Byte>, home: map<Member, string>, log: seq<Sending>, since: nat, m: Member, x: Sending)
    requires WrittenOk(written, home, log, since, m)
    ensures WrittenOk(if IsMeant(home, x, m) then written + EncodePacket(x.pkt) else written, home, log + [x], since, m)
  {
    var before := MeantFor(home, log[since..], m);
    assert (log + [x])[since..] == log[since..] + [x];
    MeantForGrows(home, log[since..], x, m);
    EncodeAllSnoc(EncodePacket, before, x.pkt);
    assert before + [] == before;
  }

  lemma WrittenAnew(home: map<Member, string>, log: seq<Sending>, m: Member)
    ensures WrittenOk([], home, log, |log|, m)
  {
    assert log[|log|..] == [];
  }

  // ---- the hub's part of a step ----

  lemma HubInv(h: Hub.State)
    requires Reachable(h)
    ensures Hub.Inv(h)
  {
    var ss, acts :| Runs.IsRun(Hub.Init(), Hub.Enabled, Hub.Apply, ss, acts) && ss[|acts|] == h;
    Hub.HubInvariant(ss, acts, |acts|);
  }

  lemma StaysReachable(h: Hub.State, b: Hub.Action)
    requires Reachable(h) && Hub.Enabled(h, b)
    ensures Reachable(Hub.Apply(h, b))
  {
    Runs.StaysReachable(Hub.Init(), Hub.Enabled, Hub.Apply, h, b);
  }

  lemma HomesStay(h: Hub.State, b: Hub.Action)
    requires Reachable(h) && Hub.Enabled(h, b)
    ensures Extends(h.home, Hub.Apply(h, b).home)
  {
    HubInv(h);
    NewHomes(h, b);
  }

  lemma NewHomes(h: Hub.State, b: Hub.Action)
    requires Hub.Homed(h) && Hub.Enabled(h, b)
    ensures Extends(h.home, Hub.Apply(h, b).home)
  {
    assert b.Grant? ==> b.m !in h.lines;
  }

  /** Whoever is in a room now was there before, or has just been granted. */
  lemma InRoomBefore(h: Hub.State, b: Hub.Action, m: Member)
    requires Hub.Homed(h) && Hub.Enabled(h, b) && Hub.Apply(h, b).InRoom(m)
    ensures h.InRoom(m) || (b.Grant? && b.m == m)
  {
  }

  lemma NewLineIsBare(h: Hub.State, b: Hub.Action, m: Member)
    requires Hub.Enabled(h, b) && b.Grant? && b.m == m
    ensures m in Hub.Apply(h, b).lines && Hub.Apply(h, b).lines[m].stream == None
  {
  }

  /** Whoever listens after a step has the line the step has made of its line. */
  lemma StillListening(h: Hub.State, b: Hub.Action, m: Member)
    requires Reachable(h) && Hub.Enabled(h, b) && Listening(Hub.Apply(h, b), m)
    ensures m in h.lines && m in h.home && h.InRoom(m)
    ensures Hub.Apply(h, b).lines[m] == Hub.NextLine(h, b, m)
  {
    HubInv(h);
    InRoomBefore(h, b, m);
    if b.Grant? && b.m == m {
      NewLineIsBare(h, b, m);
    } else {
      Hub.StepOfLine(h, b, m);
    }
  }

  lemma OnlyOwner(h: Hub.State, m: Member, n: Member)
    requires Reachable(h) && h.Owns(m.conn, m) && h.Owns(m.conn, n)
    ensures n == m
  {
    HubInv(h);
  }

  lemma StreamAfterJoin(s: State, b: Hub.Action, m: Member)
    requires Reachable(s.hub) && LogOk(s.log, s.hub.home) && Enabled(s, Join(b)) && StreamOk(s, m)
    ensures StreamOk(Apply(s, Join(b)), m)
  {
    if Listening(Hub.Apply(s.hub, b), m) {
      StillListening(s.hub, b, m);
      HomesStay(s.hub, b);
      WrittenKept(s.hub.lines[m].stream.value, s.hub.home, Hub.Apply(s.hub, b).home, s.log, s.since[m], m);
    }
  }

  /** The streams a peer has after a step are the one of NextLine. */
  lemma AttachedLine(h: Hub.State, conn: Conn, m: Member)
    requires m in h.lines && h.InRoom(m) && Hub.NextLine(h, Hub.Attach(conn), m).stream.Some?
    ensures Hub.NextLine(h, Hub.Attach(conn), m).stream == if h.Owns(conn, m) then Some([]) else h.lines[m].stream
  {
  }

  lemma RoutedLine(h: Hub.State, x: Sending, m: Member)
    requires m in h.lines && m in h.home && h.InRoom(m) && Hub.NextLine(h, Hub.Route(x.from, x.pkt), m).stream.Some?
    ensures h.lines[m].stream.Some?
    ensures Hub.NextLine(h, Hub.Route(x.from, x.pkt), m).stream.value ==
      if IsMeant(h.home, x, m) then h.lines[m].stream.value + EncodePacket(x.pkt) else h.lines[m].stream.value
  {
  }

  lemma StreamAfterAttach(s: State, m0: Member, id: nat, m: Member)
    requires Reachable(s.hub) && Enabled(s, Attach(m0, id)) && StreamOk(s, m)
    ensures StreamOk(Apply(s, Attach(m0, id)), m)
  {
    var b := Hub.Attach(m0.conn);
    if Listening(Hub.Apply(s.hub, b), m) {
      StillListening(s.hub, b, m);
      AttachedLine(s.hub, m0.conn, m);
      if s.hub.Owns(m0.conn, m) {
        OnlyOwner(s.hub, m0, m);
        WrittenAnew(s.hub.home, s.log, m);
      } else {
        assert m != m0;
      }
    }
  }

  lemma StreamAfterRoute(s: State, x: Sending, h': Hub.State, m: Member)
    requires Reachable(s.hub) && StreamOk(s, m) && Hub.Enabled(s.hub, Hub.Route(x.from, x.pkt))
    requires h' == Hub.Apply(s.hub, Hub.Route(x.from, x.pkt))
    ensures StreamOk(s.(hub := h', log := s.log + [x]), m)
  {
    if Listening(h', m) {
      StillListening(s.hub, Hub.Route(x.from, x.pkt), m);
      RoutedLine(s.hub, x, m);
      WrittenGrows(s.hub.lines[m].stream.value, s.hub.home, s.log, s.since[m], m, x);
    }
  }

  lemma StepStreams(s: State, a: Action)
    requires Inv(s) && Enabled(s, a)
    ensures StreamsOk(Apply(s, a))
  {
    forall m ensures StreamOk(Apply(s, a), m) {
      assert StreamOk(s, m);
      match a
      case Join(b) => StreamAfterJoin(s, b, m);
      case Attach(m0, id) => StreamAfterAttach(s, m0, id, m);
      case Arrive(id, _) =>
      case ReadOne(id) =>
        var pkt := ParsePacket(s.readers[id].unread).value;
        if pkt != [] {
          CanRoute(s, id);
          var x := Sending(id, s.readers[id].owner, pkt);
          StreamAfterRoute(s, x, Hub.Apply(s.hub, Hub.Route(x.from, x.pkt)), m);
        }
    }
  }

  // ---- the readers' part ----

  /** What reading a packet takes off the stream is the packet's encoding. */
  lemma ParsedIsEncoded(unread: seq<Byte>)
    requires ParsePacket(unread).Parsed?
    ensures Fits(ParsePacket(unread).value)
    ensures unread == EncodePacket(ParsePacket(unread).value) + ParsePacket(unread).rest
  {
    var pkt, rest := ParsePacket(unread).value, ParsePacket(unread).rest;
    assert unread == unread[..2] + pkt + rest;
    assert BigEndian(FromBigEndian(unread[0], unread[1])) == unread[..2];
  }

  lemma ReaderAfterArrive(r: Reader, id: nat, log: seq<Sending>, bytes: seq<Byte>)
    requires ReaderOk(r, id, log)
    ensures ReaderOk(r.(arrived := r.arrived + bytes, unread := r.unread + bytes), id, log)
  {
    Associates(EncodeAll(EncodePacket, r.read), r.unread, bytes);
  }

  lemma ReaderAfterRead(r: Reader, id: nat, log: seq<Sending>, pkt: Packet, rest: seq<Byte>)
    requires ReaderOk(r, id, log) && Fits(pkt) && r.unread == EncodePacket(pkt) + rest
    ensures ReaderOk(r.(unread := rest, read := r.read + [pkt]), id,
      if pkt == [] then log else log + [Sending(id, r.owner, pkt)])
  {
    EncodeAllSnoc(EncodePacket, r.read, pkt);
    NonEmptySnoc(r.read, pkt);
    Associates(EncodeAll(EncodePacket, r.read), EncodePacket(pkt), rest);
    SentByGrows(log, Sending(id, r.owner, pkt), id);
  }

  lemma OtherReader(r: Reader, id: nat, log: seq<Sending>, x: Sending)
    requires ReaderOk(r, id, log) && x.id != id
    ensures ReaderOk(r, id, log + [x])
  {
    SentByGrows(log, x, id);
    assert SentBy(log, id) + [] == SentBy(log, id);
  }

  lemma {:induction false} NothingSentYet(log: seq<Sending>, id: nat)
    requires forall k :: 0 <= k < |log| ==> log[k].id != id
    ensures SentBy(log, id) == []
  {
    if log == [] {
    } else {
      NothingSentYet(log[..|log| - 1], id);
    }
  }

  lemma ReadersAfterRead(s: State, id: nat, pkt: Packet, rest: seq<Byte>, h': Hub.State)
    requires ReadersOk(s) && id in s.readers && Fits(pkt) && s.readers[id].unread == EncodePacket(pkt) + rest
    requires h'.home == s.hub.home
    ensures var r := s.readers[id];
      ReadersOk(s.(hub := h', readers := s.readers[id := r.(unread := rest, read := r.read + [pkt])],
                   log := if pkt == [] then s.log else s.log + [Sending(id, r.owner, pkt)]))
  {
    var r := s.readers[id];
    ReaderAfterRead(r, id, s.log, pkt, rest);
    forall k | k in s.readers && k != id && pkt != [] ensures ReaderOk(s.readers[k], k, s.log + [Sending(id, r.owner, pkt)]) {
      OtherReader(s.readers[k], k, s.log, Sending(id, r.owner, pkt));
    }
  }

  lemma ReadersAfterJoin(s: State, h': Hub.State)
    requires ReadersOk(s) && Extends(s.hub.home, h'.home)
    ensures ReadersOk(s.(hub := h'))
  {
  }

  lemma ReadersAfterAttach(s: State, m: Member, id: nat, h': Hub.State, since: map<Member, nat>)
    requires ReadersOk(s) && id !in s.readers && m in s.hub.home && h'.home == s.hub.home
    ensures ReadersOk(s.(hub := h', readers := s.readers[id := Reader(m, [], [], [])], since := since))
  {
    NothingSentYet(s.log, id);
  }

  lemma ReadersAfterArrive(s: State, id: nat, bytes: seq<Byte>)
    requires ReadersOk(s) && id in s.readers
    ensures ReadersOk(Apply(s, Arrive(id, bytes)))
  {
    ReaderAfterArrive(s.readers[id], id, s.log, bytes);
  }

  lemma ReadersAfterReadOne(s: State, id: nat)
    requires ReadersOk(s) && Enabled(s, ReadOne(id))
    ensures ReadersOk(Apply(s, ReadOne(id)))
  {
    var p := ParsePacket(s.readers[id].unread);
    ParsedIsEncoded(s.readers[id].unread);
    ReadersAfterRead(s, id, p.value, p.rest, Apply(s, ReadOne(id)).hub);
  }

  lemma StepReaders(s: State, a: Action)
    requires Reachable(s.hub) && ReadersOk(s) && Enabled(s, a)
    ensures ReadersOk(Apply(s, a))
  {
    match a
    case Join(b) =>
      HomesStay(s.hub, b);
      ReadersAfterJoin(s, Hub.Apply(s.hub, b));
    case Attach(m, id) =>
      ReadersAfterAttach(s, m, id, Hub.Apply(s.hub, Hub.Attach(m.conn)), s.since[m := |s.log|]);
    case Arrive(id, bytes) =>
      ReadersAfterArrive(s, id, bytes);
    case ReadOne(id) =>
      ReadersAfterReadOne(s, id);
  }

  // ---- end to end ----

  /** A sender is a peer that was granted. */
  lemma CanRoute(s: State, id: nat)
    requires Inv(s) && Enabled(s, ReadOne(id))
    ensures Hub.Enabled(s.hub, Hub.Route(s.readers[id].owner, ParsePacket(s.readers[id].unread).value))
  {
    ParsedIsEncoded(s.readers[id].unread);
    HubInv(s.hub);
  }

  lemma StepHub(s: State, a: Action)
    requires Inv(s) && Enabled(s, a)
    ensures Reachable(Apply(s, a).hub) && LogOk(Apply(s, a).log, Apply(s, a).hub.home)
  {
    match a
    case Join(b) =>
      StaysReachable(s.hub, b);
      HomesStay(s.hub, b);
    case Attach(m, _) =>
      StaysReachable(s.hub, Hub.Attach(m.conn));
    case Arrive(_, _) =>
    case ReadOne(id) =>
      CanRoute(s, id);
      StaysReachable(s.hub, Hub.Route(s.readers[id].owner, ParsePacket(s.readers[id].unread).value));
  }

  lemma InvAlways(ss: seq<State>, acts: seq<Action>, i: nat)
    requires Runs.IsRun(Init(), Enabled, Apply, ss, acts) && i < |ss|
    ensures Inv(ss[i])
  {
    forall s, a | Inv(s) && Enabled(s, a) ensures Inv(Apply(s, a)) {
      StepHub(s, a);
      StepReaders(s, a);
      StepStreams(s, a);
    }
    Runs.InitReachable(Hub.Init(), Hub.Enabled, Hub.Apply);
    Runs.Always(Init(), Enabled, Apply, Inv, ss, acts, i);
  }

  lemma StreamDecodes(s: State, m: Member)
    requires Inv(s) && Listening(s.hub, m)
    ensures m in s.since && s.since[m] <= |s.log|
    ensures DecodeAll(ParsePacket, s.hub.lines[m].stream.value) == (MeantFor(s.hub.home, s.log[s.since[m]..], m), Eof)
  {
    assert StreamOk(s, m);
    MeantForFits(s.hub.home, s.log[s.since[m]..], m);
    PacketsUniquelyDecodable(MeantFor(s.hub.home, s.log[s.since[m]..], m), 0);
  }

  lemma ReaderDecodes(r: Reader, id: nat, log: seq<Sending>)
    requires ReaderOk(r, id, log)
    ensures Sent(r.arrived) == SentBy(log, id) + Sent(r.unread)
  {
    PacketsLawful();
    DecodeAllEncoded(EncodePacket, Fits, ParsePacket, r.read, r.unread);
    NonEmptyAppend(r.read, DecodeAll(ParsePacket, r.unread).0);
  }

  lemma {:induction false} NonEmptyAppend(xs: seq<Packet>, ys: seq<Packet>)
    ensures NonEmpty(xs + ys) == NonEmpty(xs) + NonEmpty(ys)
  {
    if xs == [] {
      assert xs + ys == ys;
    } else {
      assert (xs + ys)[1..] == xs[1..] + ys;
      NonEmptyAppend(xs[1..], ys);
    }
  }

  /** From stream to stream, in every interleaving and for every chunking: one
      log interleaves what all streams have sent. Of each stream it has exactly
      the non-empty packets that the arrived bytes decode to, in order, up to
      those not yet read. And the stream of each peer in a room decodes to
      exactly the packets logged since it was attached that are for that peer,
      in that order. */
  lemma StreamToStream(ss: seq<State>, acts: seq<Action>, i: nat)
    requires Runs.IsRun(Init(), Enabled, Apply, ss, acts) && i < |ss|
    ensures forall id :: id in ss[i].readers ==>
      Sent(ss[i].readers[id].arrived) == SentBy(ss[i].log, id) + Sent(ss[i].readers[id].unread)
    ensures forall m :: Listening(ss[i].hub, m) ==>
      && m in ss[i].since && ss[i].since[m] <= |ss[i].log|
      && DecodeAll(ParsePacket, ss[i].hub.lines[m].stream.value)
        == (MeantFor(ss[i].hub.home, ss[i].log[ss[i].since[m]..], m), Eof)
  {
    InvAlways(ss, acts, i);
    var s := ss[i];
    forall id | id in s.readers ensures Sent(s.readers[id].arrived) == SentBy(s.log, id) + Sent(s.readers[id].unread) {
      ReaderDecodes(s.readers[id], id, s.log);
    }
    forall m | Listening(s.hub, m)
      ensures m in s.since && s.since[m] <= |s.log|
      ensures DecodeAll(ParsePacket, s.hub.lines[m].stream.value) == (MeantFor(s.hub.home, s.log[s.since[m]..], m), Eof)
    {
      StreamDecodes(s, m);
    }
  }
}
