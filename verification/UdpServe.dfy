// internal/server/udp.go: serveUDP's one receive loop for all public peers of a
// tunnel, with the bytes it writes to the data stream of each of them.
module UdpServe {
  import opened Bytes
  import opened Codec
  import Framing
  import opened UdpTransport
  import UdpPeers
  import Runs

  datatype Received = Received(key: UdpPeers.Key, data: Payload)

  /** The data stream of one admitted peer. */
  datatype Line = Line(
    since: nat,               // history: which received datagram has it admitted
    sent: seq<Payload>,       // history: the datagrams written
    lost: Option<Payload>,    // history: the one whose write failed, after `cut` bytes
    cut: nat,
    out: seq<Byte>)           // all bytes written
  {
    /** The datagrams the loop has tried to forward to this peer. */
    function Tried(): seq<Payload> {
      sent + if lost.Some? then [lost.value] else []
    }
  }

  datatype State = State(
    id: Word,
    table: UdpPeers.State,
    data: Payload,            // what the receive buffer holds
    log: seq<Received>,       // history: every datagram received, in order
    lines: map<nat, Line>)    // every peer ever admitted
  {
    predicate Writes(p: nat) {
      table.recv.Writing? && table.recv.p == p
    }

    predicate Holds(k: UdpPeers.Key) {
      table.recv.Got? && table.recv.key == k
    }
  }

  datatype Action =
    | Receive(key: UdpPeers.Key, data: Payload)
    | Admit(p: nat)
    | WriteOk
    | WriteFails(n: nat)        // after n bytes of the frame
    | Other(a: UdpPeers.Action)

  function Init(id: Word): State {
    State(id, UdpPeers.Init(), [], [], map[])
  }

  function Frame(data: Payload): seq<Byte> {
    Framing.EncodeFrame(Framing.Datagram(data))
  }

  /** The step of the peer table that goes with a step. */
  function TableStep(a: Action): UdpPeers.Action {
    match a
    case Receive(key, _) => UdpPeers.Receive(key)
    case Admit(p) => UdpPeers.Admit(p)
    case WriteOk => UdpPeers.WriteOk
    case WriteFails(_) => UdpPeers.WriteFails
    case Other(b) => b
  }

  predicate Enabled(s: State, a: Action) {
    && UdpPeers.Enabled(s.table, TableStep(a))
    && match a
       case Receive(_, data) => Receivable(data)
       case Admit(_) => s.table.recv.Got? && |s.table.recv.key| <= Framing.MAX_HELLO_LEN
       case WriteOk => true
       case WriteFails(n) => n < |Frame(s.data)|
       case Other(b) => !b.Receive? && !b.Admit? && !b.WriteOk? && !b.WriteFails?
  }

  function Apply(s: State, a: Action): State {
    var s1 := s.(table := UdpPeers.Apply(s.table, TableStep(a)));
    match a
    case Receive(key, data) => s1.(data := data, log := s.log + [Received(key, data)])
    case Admit(p) =>
      if s.table.recv.Got? && s.log != []
      then s1.(lines := s.lines[p := Line(|s.log| - 1, [], None, 0, ServerBytes(s.id, s.table.recv.key, []))])
      else s1
    case WriteOk =>
      if s.table.recv.Writing? && s.table.recv.p in s.lines
      then s1.(lines := s.lines[s.table.recv.p := Written(s.lines[s.table.recv.p], s.data)])
      else s1
    case WriteFails(n) =>
      if s.table.recv.Writing? && s.table.recv.p in s.lines && n < |Frame(s.data)|
      then s1.(lines := s.lines[s.table.recv.p := Broken(s.lines[s.table.recv.p], s.data, n)])
      else s1
    case Other(_) => s1
  }

  function Written(l: Line, data: Payload): Line {
    l.(sent := l.sent + [data], out := l.out + Frame(data))
  }

  function Broken(l: Line, data: Payload, n: nat): Line
    requires n < |Frame(data)|
  {
    l.(lost := Some(data), cut := n, out := l.out + Frame(data)[..n])
  }

  // ---- what the histories say ----

  /** The datagrams of a log that came from one address, in order. */
  function From(log: seq<Received>, key: UdpPeers.Key): seq<Payload> {
    if log == [] then []
    else From(log[..|log| - 1], key) + if log[|log| - 1].key == key then [log[|log| - 1].data] else []
  }

  lemma FromGrows(log: seq<Received>, x: Received, key: UdpPeers.Key)
    ensures From(log + [x], key) == From(log, key) + if x.key == key then [x.data] else []
  {
    assert (log + [x])[..|log|] == log;
  }

  // ---- bytes ----

  /** The stream's bytes are those of the datagrams written, and of the part of
      one more that was written before the write failed. */
  ghost predicate BytesOk(id: Word, key: UdpPeers.Key, l: Line) {
    && |key| <= Framing.MAX_HELLO_LEN && AllOk(Receivable, l.sent)
    && (l.lost == None ==> l.out == ServerBytes(id, key, l.sent))
    && (l.lost.Some? ==> Receivable(l.lost.value) && l.cut < |Frame(l.lost.value)|)
    && (l.lost.Some? ==> l.out == ServerBytes(id, key, l.sent) + Frame(l.lost.value)[..l.cut])
  }

  lemma BytesWritten(id: Word, key: UdpPeers.Key, l: Line, data: Payload)
    requires BytesOk(id, key, l) && l.lost == None && Receivable(data)
    ensures BytesOk(id, key, Written(l, data))
  {
    var more := l.sent + [data];
    EncodedSnoc(more, |l.sent|);
    assert more[..|l.sent|] == l.sent && more[..|l.sent| + 1] == more;
    Associates(BigEndian(id) + Framing.EncodeFrame(Framing.Hello(key)), Encoded(l.sent), Frame(data));
  }

  /** What the client makes of such a stream. */
  lemma ClientSees(id: Word, key: UdpPeers.Key, l: Line)
    requires BytesOk(id, key, l)
    ensures ClientView(l.out) == Some(View(id, key, NonEmpty(l.sent)))
  {
    if l.lost == None {
      DeliversExactly(id, key, l.sent);
    } else {
      var part := Frame(l.lost.value)[..l.cut];
      PassedWithPart(l.sent, l.lost.value, l.cut);
      Regroup(BigEndian(id), Framing.EncodeFrame(Framing.Hello(key)), Encoded(l.sent), part);
      Associates(Framing.EncodeFrame(Framing.Hello(key)), Encoded(l.sent), part);
      ClientViewOf(id, key, Encoded(l.sent) + part);
    }
  }

  lemma PassedWithPart(sent: seq<Payload>, data: Payload, n: nat)
    requires AllOk(Receivable, sent) && Receivable(data) && n < |Frame(data)|
    ensures Passed(Encoded(sent) + Frame(data)[..n]) == NonEmpty(sent)
  {
    DatagramsFit(sent);
    Framing.FramesLawful();
    Framing.ParseFrameCut(Framing.Datagram(data), n);
    DecodeAllEncoded(Framing.EncodeFrame, Framing.Fits, Framing.ParseFrame, AsFrames(sent), Frame(data)[..n]);
    assert AsFrames(sent) + [] == AsFrames(sent);
    PassedOnDatagrams(sent);
  }

  // ---- invariant ----

  /** Of the datagrams received from an address since its peer was admitted, the
      loop has tried a first part, and has one in hand if it writes to the peer.
      For a peer in the table that is all of them, but for one not yet looked up. */
  ghost predicate Forwarded(tried: seq<Payload>, inHand: seq<Payload>, held: seq<Payload>, received: seq<Payload>, current: bool) {
    tried + inHand <= received && (current ==> tried + inHand + held == received)
  }

  function InHand(s: State, p: nat): seq<Payload> {
    if s.Writes(p) then [s.data] else []
  }

  function Held(s: State, k: UdpPeers.Key): seq<Payload> {
    if s.Holds(k) then [s.data] else []
  }

  ghost predicate Since(s: State, p: nat)
    requires p in s.lines
  {
    p in s.table.peers && s.lines[p].since < |s.log|
  }

  /** What was received from the peer's address since it was admitted. */
  ghost function SinceAdmitted(s: State, p: nat): seq<Payload>
    requires p in s.lines && Since(s, p)
  {
    From(s.log[s.lines[p].since..], s.table.peers[p].key)
  }

  ghost predicate HistoryOk(s: State, p: nat)
    requires p in s.lines
  {
    && Since(s, p)
    && Forwarded(s.lines[p].Tried(), InHand(s, p), Held(s, s.table.peers[p].key), SinceAdmitted(s, p), s.table.Current(p))
  }

  /** After a failed write the peer is written to no more. */
  ghost predicate LostOk(s: State, p: nat)
    requires p in s.lines
  {
    s.lines[p].lost.Some? ==> s.table.recv == UdpPeers.Evicting(p) || s.table.OnceIs(p, UdpPeers.Done)
  }

  ghost predicate RecvOk(s: State) {
    && (s.table.recv.Got? ==> s.log != [] && s.log[|s.log| - 1] == Received(s.table.recv.key, s.data) && Receivable(s.data))
    && (s.table.recv.Writing? ==> Receivable(s.data) && s.table.recv.p in s.lines && s.lines[s.table.recv.p].lost == None)
    && (s.table.recv.Evicting? ==> s.table.recv.p in s.lines)
  }

  /** No other peer has the address of the one the loop is busy with. */
  ghost predicate Alone(t: UdpPeers.State) {
    (t.recv.Writing? || t.recv.Evicting?) && t.recv.p in t.peers && t.peers[t.recv.p].key in t.table ==> t.Current(t.recv.p)
  }

  ghost predicate LinesOk(s: State) {
    && (forall p :: p in s.lines ==> HistoryOk(s, p) && LostOk(s, p))
    && (forall p :: p in s.lines ==> BytesOk(s.id, s.table.peers[p].key, s.lines[p]))
    && (forall p :: s.table.Current(p) ==> p in s.lines)
  }

  ghost predicate Reachable(t: UdpPeers.State) {
    Runs.Reachable(UdpPeers.Init(), UdpPeers.Enabled, UdpPeers.Apply, t)
  }

  ghost predicate Inv(s: State) {
    Reachable(s.table) && RecvOk(s) && Alone(s.table) && LinesOk(s)
  }

  // ---- the table's part of a step ----

  lemma TableOk(t: UdpPeers.State)
    requires Reachable(t)
    ensures UdpPeers.Inv(t)
  {
    var ss, acts :| Runs.IsRun(UdpPeers.Init(), UdpPeers.Enabled, UdpPeers.Apply, ss, acts) && ss[|acts|] == t;
    UdpPeers.InvAlways(ss, acts, |acts|);
  }

  lemma StaysReachable(t: UdpPeers.State, b: UdpPeers.Action)
    requires Reachable(t) && UdpPeers.Enabled(t, b)
    ensures Reachable(UdpPeers.Apply(t, b))
  {
    Runs.StaysReachable(UdpPeers.Init(), UdpPeers.Enabled, UdpPeers.Apply, t, b);
  }

  /** A peer keeps its address, is never entered again, and stays evicted. */
  lemma PeerStays(t: UdpPeers.State, b: UdpPeers.Action, p: nat)
    requires UdpPeers.Enabled(t, b) && p in t.peers
    ensures p in UdpPeers.Apply(t, b).peers && UdpPeers.Apply(t, b).peers[p].key == t.peers[p].key
    ensures UdpPeers.Apply(t, b).Current(p) ==> t.Current(p)
    ensures t.OnceIs(p, UdpPeers.Done) ==> UdpPeers.Apply(t, b).OnceIs(p, UdpPeers.Done)
  {
  }

  /** Only an admission enters a peer. */
  lemma OnlyAdmitted(t: UdpPeers.State, b: UdpPeers.Action, p: nat)
    requires UdpPeers.Enabled(t, b) && UdpPeers.Apply(t, b).Current(p)
    ensures t.Current(p) || b == UdpPeers.Admit(p)
  {
  }

  // ---- what a step does to one line ----

  lemma HistoryAfterReceive(s: State, key: UdpPeers.Key, data: Payload, p: nat)
    requires Enabled(s, Receive(key, data)) && p in s.lines && HistoryOk(s, p)
    ensures HistoryOk(Apply(s, Receive(key, data)), p)
  {
    var s' := Apply(s, Receive(key, data));
    PeerStays(s.table, UdpPeers.Receive(key), p);
    var since := s.lines[p].since;
    assert s'.log[since..] == s.log[since..] + [Received(key, data)];
    FromGrows(s.log[since..], Received(key, data), s.table.peers[p].key);
  }

  lemma HistoryAfterAdmit(s: State, q: nat, p: nat)
    requires Enabled(s, Admit(q)) && p in s.lines && p != q && HistoryOk(s, p)
    ensures HistoryOk(Apply(s, Admit(q)), p)
  {
    PeerStays(s.table, UdpPeers.Admit(q), p);
  }

  lemma HistoryOfNew(s: State, q: nat)
    requires Enabled(s, Admit(q)) && RecvOk(s)
    ensures q in Apply(s, Admit(q)).lines && HistoryOk(Apply(s, Admit(q)), q)
  {
    OneFrom(s.log, s.table.recv.key);
  }

  lemma OneFrom(log: seq<Received>, key: UdpPeers.Key)
    requires log != [] && log[|log| - 1].key == key
    ensures From(log[|log| - 1..], key) == [log[|log| - 1].data]
  {
    var last := log[|log| - 1..];
    assert last == [log[|log| - 1]] && last[..0] == [];
  }

  lemma HistoryAfterWrite(s: State, a: Action, p: nat)
    requires (a.WriteOk? || a.WriteFails?) && Enabled(s, a) && p in s.lines && HistoryOk(s, p) && RecvOk(s)
    ensures p in Apply(s, a).lines && HistoryOk(Apply(s, a), p)
  {
    PeerStays(s.table, TableStep(a), p);
  }

  lemma HistoryAfterOther(s: State, b: UdpPeers.Action, p: nat)
    requires Enabled(s, Other(b)) && p in s.lines && HistoryOk(s, p)
    requires b.Known? ==> UdpPeers.EntryOk(s.table, s.table.recv.key)
    ensures HistoryOk(Apply(s, Other(b)), p)
  {
    PeerStays(s.table, b, p);
  }

  lemma LostAfter(s: State, a: Action, p: nat)
    requires Enabled(s, a) && p in s.lines && p in s.table.peers && LostOk(s, p) && RecvOk(s)
    requires a.Admit? ==> p != a.p
    ensures p in Apply(s, a).lines && LostOk(Apply(s, a), p)
  {
    PeerStays(s.table, TableStep(a), p);
  }

  lemma BytesAfter(s: State, a: Action, p: nat)
    requires Enabled(s, a) && p in s.lines && p in s.table.peers && BytesOk(s.id, s.table.peers[p].key, s.lines[p]) && RecvOk(s)
    requires a.Admit? ==> p != a.p
    ensures p in Apply(s, a).lines && BytesOk(s.id, s.table.peers[p].key, Apply(s, a).lines[p])
  {
    if a.WriteOk? && p == s.table.recv.p {
      BytesWritten(s.id, s.table.peers[p].key, s.lines[p], s.data);
    }
  }

  // ---- steps ----

  lemma StepRecv(s: State, a: Action)
    requires Enabled(s, a) && RecvOk(s)
    requires a == Other(UdpPeers.Known) ==> s.table.table[s.table.recv.key] in s.lines && s.lines[s.table.table[s.table.recv.key]].lost == None
    ensures RecvOk(Apply(s, a))
  {
  }

  lemma StepAlone(t: UdpPeers.State, b: UdpPeers.Action)
    requires UdpPeers.Enabled(t, b) && Alone(t) && UdpPeers.TableInv(t)
    ensures Alone(UdpPeers.Apply(t, b))
  {
    if b.Known? {
      assert UdpPeers.EntryOk(t, t.recv.key);
    }
  }

  /** The peer found in the table can be written to. */
  lemma KnownCanWrite(s: State)
    requires Inv(s) && Enabled(s, Other(UdpPeers.Known))
    ensures UdpPeers.EntryOk(s.table, s.table.recv.key)
    ensures var q := s.table.table[s.table.recv.key]; q in s.lines && s.lines[q].lost == None
  {
    TableOk(s.table);
    var q := s.table.table[s.table.recv.key];
    assert UdpPeers.EntryOk(s.table, s.table.recv.key);
    assert s.table.Current(q);
    assert LostOk(s, q);
  }

  lemma StepLine(s: State, a: Action, p: nat)
    requires Inv(s) && Enabled(s, a) && p in s.lines && (a.Admit? ==> p != a.p)
    ensures p in Apply(s, a).lines && HistoryOk(Apply(s, a), p) && LostOk(Apply(s, a), p)
    ensures BytesOk(s.id, Apply(s, a).table.peers[p].key, Apply(s, a).lines[p])
  {
    assert HistoryOk(s, p) && LostOk(s, p);
    PeerStays(s.table, TableStep(a), p);
    LostAfter(s, a, p);
    BytesAfter(s, a, p);
    match a
    case Receive(key, data) => HistoryAfterReceive(s, key, data, p);
    case Admit(q) => HistoryAfterAdmit(s, q, p);
    case WriteOk => HistoryAfterWrite(s, a, p);
    case WriteFails(_) => HistoryAfterWrite(s, a, p);
    case Other(b) =>
      if b.Known? {
        KnownCanWrite(s);
      }
      HistoryAfterOther(s, b, p);
  }

  lemma NewLine(s: State, q: nat)
    requires Enabled(s, Admit(q)) && RecvOk(s)
    ensures var s' := Apply(s, Admit(q));
      q in s'.lines && HistoryOk(s', q) && LostOk(s', q) && BytesOk(s.id, s'.table.peers[q].key, s'.lines[q])
  {
    HistoryOfNew(s, q);
  }

  lemma StepLines(s: State, a: Action)
    requires Inv(s) && Enabled(s, a)
    ensures LinesOk(Apply(s, a))
  {
    var s' := Apply(s, a);
    forall p | p in s'.lines
      ensures HistoryOk(s', p) && LostOk(s', p)
      ensures BytesOk(s'.id, s'.table.peers[p].key, s'.lines[p])
    {
      if a == Admit(p) {
        NewLine(s, p);
      } else {
        StepLine(s, a, p);
      }
    }
    forall p | s'.table.Current(p) ensures p in s'.lines {
      OnlyAdmitted(s.table, TableStep(a), p);
    }
  }

  lemma StepInv(s: State, a: Action)
    requires Inv(s) && Enabled(s, a)
    ensures Inv(Apply(s, a))
  {
    StepLines(s, a);
    StaysReachable(s.table, TableStep(a));
    TableOk(s.table);
    StepAlone(s.table, TableStep(a));
    if a == Other(UdpPeers.Known) {
      KnownCanWrite(s);
    }
    StepRecv(s, a);
  }

  lemma InvAlways(id: Word, ss: seq<State>, acts: seq<Action>, i: nat)
    requires Runs.IsRun(Init(id), Enabled, Apply, ss, acts) && i < |ss|
    ensures Inv(ss[i]) && ss[i].id == id
  {
    var inv := (s: State) => Inv(s) && s.id == id;
    forall s, a | inv(s) && Enabled(s, a) ensures inv(Apply(s, a)) {
      StepInv(s, a);
    }
    Runs.InitReachable(UdpPeers.Init(), UdpPeers.Enabled, UdpPeers.Apply);
    Runs.Always(Init(id), Enabled, Apply, inv, ss, acts, i);
  }

  /** In every interleaving of any number of public peers, of write failures,
      evictions and the close: the stream of each peer ever admitted holds the
      tunnel id, the HELLO and the frames of a first part of the datagrams
      received from its address since its admission, in order, and if a write
      has failed a part of the next frame; the client delivers exactly the
      non-empty ones. A peer in the table has been forwarded all of them
      whenever the loop waits for the next datagram. */
  lemma ServesEveryPeer(id: Word, ss: seq<State>, acts: seq<Action>, i: nat, p: nat)
    requires Runs.IsRun(Init(id), Enabled, Apply, ss, acts) && i < |ss| && p in ss[i].lines
    ensures Since(ss[i], p) && ss[i].lines[p].Tried() <= SinceAdmitted(ss[i], p)
    ensures ss[i].table.Current(p) && ss[i].table.recv.Idle? ==>
      ss[i].lines[p].lost == None && ss[i].lines[p].sent == SinceAdmitted(ss[i], p)
    ensures ss[i].lines[p].lost == None ==> ss[i].lines[p].out == ServerBytes(id, ss[i].table.peers[p].key, ss[i].lines[p].sent)
    ensures BytesOk(id, ss[i].table.peers[p].key, ss[i].lines[p])
    ensures ClientView(ss[i].lines[p].out) == Some(View(id, ss[i].table.peers[p].key, NonEmpty(ss[i].lines[p].sent)))
  {
    InvAlways(id, ss, acts, i);
    var s := ss[i];
    assert HistoryOk(s, p) && LostOk(s, p);
    TableOk(s.table);
    assert s.table.Current(p) ==> UdpPeers.EntryOk(s.table, s.table.peers[p].key);
    ClientSees(s.id, s.table.peers[p].key, s.lines[p]);
  }
}
