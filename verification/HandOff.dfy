// The control stream of a TCP or UDP tunnel, both directions: Auth, AuthOK,
// then Pings and Pongs. On each side one decoder reads the first frame and
// another one takes over (internal/server/connection.go handleControl and
// grantTunnel, internal/server/tunnel.go serveControl,
// internal/client/client.go setupTunnel and controlPings).
module HandOff {
  import opened Bytes
  import opened Codec
  import opened Control
  import Runs

  /** One direction: bytes on the wire, and the two decoders at its end. */
  datatype Channel = Channel(
    sent: seq<Line>, got: seq<Line>,           // history: frames written, frames returned
    first: seq<Byte>, second: seq<Byte>,       // read-ahead of the two decoders
    wire: seq<Byte>)
  {
    function Send(line: Line): Channel {
      this.(sent := sent + [line], wire := wire + EncodeLine(line))
    }

    predicate CanFill(n: nat) {
      1 <= n <= |wire|
    }

    function FillFirst(n: nat): Channel {
      if n <= |wire| then this.(first := first + wire[..n], wire := wire[n..]) else this
    }

    function FillSecond(n: nat): Channel {
      if n <= |wire| then this.(second := second + wire[..n], wire := wire[n..]) else this
    }

    predicate FirstReady() {
      LineEnd(first) < |first|
    }

    predicate SecondReady() {
      LineEnd(second) < |second|
    }

    function TakeFirst(): Channel {
      var n := LineEnd(first);
      if n < |first| then this.(got := got + [first[..n]], first := first[n + 1..]) else this
    }

    function TakeSecond(): Channel {
      var n := LineEnd(second);
      if n < |second| then this.(got := got + [second[..n]], second := second[n + 1..]) else this
    }

    /** The frames returned are the first ones sent, and what is buffered or on
        the wire is exactly the encoding of the others. */
    ghost predicate Lossless() {
      && AllOk(OneLine, sent)
      && |got| <= |sent| && got == sent[..|got|]
      && first + second + wire == EncodeAll(EncodeLine, sent[|got|..])
    }
  }

  datatype ClientPhase = Starting | AwaitingReply | Pinging

  datatype ServerPhase = ReadingAuth | Granting | ServingControl

  datatype State = State(client: ClientPhase, server: ServerPhase, up: Channel, down: Channel)

  datatype Action =
    | SendAuth(line: Line)
    | ServerFillFirst(n: nat)
    | ServerTakeFirst
    | SendAuthOK(line: Line)
    | ServerFillSecond(n: nat)
    | ServerTakeSecond(pong: Option<Line>)     // a Ping is answered, other frames are not
    | ClientFillFirst(n: nat)
    | ClientTakeFirst
    | SendPing(line: Line)
    | ClientFillSecond(n: nat)
    | ClientTakeSecond

  function Init(): State {
    State(Starting, ReadingAuth, Channel([], [], [], [], []), Channel([], [], [], [], []))
  }

  predicate Enabled(s: State, a: Action) {
    match a
    case SendAuth(line) => s.client.Starting? && OneLine(line)
    case ServerFillFirst(n) => s.server.ReadingAuth? && !s.up.FirstReady() && s.up.CanFill(n)
    case ServerTakeFirst => s.server.ReadingAuth? && s.up.FirstReady()
    case SendAuthOK(line) => s.server.Granting? && OneLine(line)
    case ServerFillSecond(n) => s.server.ServingControl? && !s.up.SecondReady() && s.up.CanFill(n)
    case ServerTakeSecond(pong) => s.server.ServingControl? && s.up.SecondReady() && (pong.Some? ==> OneLine(pong.value))
    case ClientFillFirst(n) => s.client.AwaitingReply? && !s.down.FirstReady() && s.down.CanFill(n)
    case ClientTakeFirst => s.client.AwaitingReply? && s.down.FirstReady()
    case SendPing(line) => s.client.Pinging? && OneLine(line)
    case ClientFillSecond(n) => s.client.Pinging? && !s.down.SecondReady() && s.down.CanFill(n)
    case ClientTakeSecond => s.client.Pinging? && s.down.SecondReady()
  }

  function Apply(s: State, a: Action): State {
    match a
    case SendAuth(line) => s.(client := AwaitingReply, up := s.up.Send(line))
    case ServerFillFirst(n) => s.(up := s.up.FillFirst(n))
    case ServerTakeFirst => s.(server := Granting, up := s.up.TakeFirst())
    case SendAuthOK(line) => s.(server := ServingControl, down := s.down.Send(line))
    case ServerFillSecond(n) => s.(up := s.up.FillSecond(n))
    case ServerTakeSecond(pong) =>
      s.(up := s.up.TakeSecond(), down := if pong.Some? then s.down.Send(pong.value) else s.down)
    case ClientFillFirst(n) => s.(down := s.down.FillFirst(n))
    case ClientTakeFirst => s.(client := Pinging, down := s.down.TakeFirst())
    case SendPing(line) => s.(up := s.up.Send(line))
    case ClientFillSecond(n) => s.(down := s.down.FillSecond(n))
    case ClientTakeSecond => s.(down := s.down.TakeSecond())
  }

  // ---- one direction ----

  lemma SendLossless(c: Channel, line: Line)
    requires c.Lossless() && OneLine(line)
    ensures c.Send(line).Lossless()
  {
    assert c.Send(line).sent[..|c.got|] == c.sent[..|c.got|];
    assert c.Send(line).sent[|c.got|..] == c.sent[|c.got|..] + [line];
    EncodeAllSnoc(EncodeLine, c.sent[|c.got|..], line);
    assert c.first + c.second + (c.wire + EncodeLine(line)) == c.first + c.second + c.wire + EncodeLine(line);
  }

  lemma FillLossless(c: Channel, n: nat)
    requires c.Lossless() && c.CanFill(n)
    ensures c.second == [] ==> c.FillFirst(n).Lossless()
    ensures c.FillSecond(n).Lossless()
  {
    assert c.wire == c.wire[..n] + c.wire[n..];
    assert c.first + (c.second + c.wire[..n]) + c.wire[n..] == c.first + c.second + c.wire;
    if c.second == [] {
      assert c.first + c.wire[..n] + c.second + c.wire[n..] == c.first + c.second + c.wire;
    }
  }

  lemma HeadEnd(buf: seq<Byte>, wire: seq<Byte>, line: Line, tail: seq<Byte>)
    requires OneLine(line) && buf + wire == EncodeLine(line) + tail && LineEnd(buf) < |buf|
    ensures LineEnd(buf) == |line|
  {
    var n, all := LineEnd(buf), buf + wire;
    assert all[n] == NEWLINE && all[|line|] == NEWLINE;
    assert forall i :: 0 <= i < |line| ==> all[i] == line[i];
    assert forall i :: 0 <= i < n ==> all[i] == buf[i];
  }

  lemma HeadLine(buf: seq<Byte>, wire: seq<Byte>, line: Line, tail: seq<Byte>)
    requires OneLine(line) && buf + wire == EncodeLine(line) + tail && LineEnd(buf) < |buf|
    ensures buf[..LineEnd(buf)] == line && buf[LineEnd(buf) + 1..] + wire == tail
  {
    HeadEnd(buf, wire, line, tail);
    DropInto(buf, wire, |line| + 1);
    DropInto(EncodeLine(line), tail, |line| + 1);
    assert (buf + wire)[..|line|] == buf[..|line|];
    assert (EncodeLine(line) + tail)[..|line|] == line;
  }

  /** The line at the head of a buffer is the next frame sent. */
  lemma NextLine(buf: seq<Byte>, wire: seq<Byte>, pending: seq<Line>)
    requires AllOk(OneLine, pending) && buf + wire == EncodeAll(EncodeLine, pending) && LineEnd(buf) < |buf|
    ensures pending != [] && buf[..LineEnd(buf)] == pending[0]
    ensures buf[LineEnd(buf) + 1..] + wire == EncodeAll(EncodeLine, pending[1..])
  {
    assert |buf + wire| > 0;
    assert OneLine(pending[0]);
    HeadLine(buf, wire, pending[0], EncodeAll(EncodeLine, pending[1..]));
  }

  lemma TakeFirstLossless(c: Channel)
    requires c.Lossless() && c.FirstReady() && c.second == []
    ensures c.TakeFirst().Lossless() && |c.got| < |c.sent|
  {
    var pending := c.sent[|c.got|..];
    assert c.first + c.wire == c.first + c.second + c.wire;
    NextLine(c.first, c.wire, pending);
    assert pending[1..] == c.sent[|c.got| + 1..];
    assert c.TakeFirst().first + c.TakeFirst().second + c.TakeFirst().wire == c.TakeFirst().first + c.wire;
  }

  lemma TakeSecondLossless(c: Channel)
    requires c.Lossless() && c.SecondReady() && c.first == []
    ensures c.TakeSecond().Lossless() && |c.got| < |c.sent|
  {
    var pending := c.sent[|c.got|..];
    assert c.second + c.wire == c.first + c.second + c.wire;
    NextLine(c.second, c.wire, pending);
    assert pending[1..] == c.sent[|c.got| + 1..];
    assert c.TakeSecond().first + c.TakeSecond().second + c.TakeSecond().wire == c.TakeSecond().second + c.wire;
  }

  lemma NothingLeft(c: Channel)
    requires c.Lossless() && |c.got| == |c.sent|
    ensures c.first == [] && c.second == [] && c.wire == []
  {
    assert c.sent[|c.got|..] == [];
    assert |c.first + c.second + c.wire| == 0;
  }

  // ---- the protocol ----

  /** The client sends nothing between Auth and AuthOK, and the server nothing
      but AuthOK before it has a second frame from the client. */
  ghost predicate Disciplined(s: State) {
    && |s.up.sent| == (if s.client.Starting? then 0 else if s.client.AwaitingReply? then 1 else |s.up.sent|)
    && (s.server.ReadingAuth? ==> s.up.got == [])
    && (!s.server.ReadingAuth? ==> |s.up.got| >= 1)
    && (!s.server.ServingControl? ==> s.down.sent == [] && !s.client.Pinging?)
    && (s.client.Starting? ==> s.server.ReadingAuth?)
    && (!s.client.Pinging? ==> |s.down.sent| <= 1 && s.down.got == [])
    && (s.client.Pinging? ==> |s.down.got| >= 1)
  }

  /** A decoder that is not reading any more has read nothing ahead. */
  ghost predicate BuffersEmpty(s: State) {
    && (!s.server.ReadingAuth? ==> s.up.first == [])
    && (!s.server.ServingControl? ==> s.up.second == [])
    && (s.client.Pinging? ==> s.down.first == [])
    && (!s.client.Pinging? ==> s.down.second == [])
  }

  ghost predicate Inv(s: State) {
    s.up.Lossless() && s.down.Lossless() && Disciplined(s) && BuffersEmpty(s)
  }

  lemma StepUp(s: State, a: Action)
    requires Inv(s) && Enabled(s, a)
    ensures Apply(s, a).up.Lossless()
    ensures a.ServerTakeFirst? ==> Apply(s, a).up.first == []
    ensures a.ServerTakeSecond? ==> s.client.Pinging?
  {
    match a
    case SendAuth(line) => SendLossless(s.up, line);
    case SendPing(line) => SendLossless(s.up, line);
    case ServerFillFirst(n) => FillLossless(s.up, n);
    case ServerFillSecond(n) => FillLossless(s.up, n);
    case ServerTakeFirst =>
      TakeFirstLossless(s.up);
      assert |s.up.sent| == 1;
      NothingLeft(s.up.TakeFirst());
    case ServerTakeSecond(_) =>
      TakeSecondLossless(s.up);
    case _ =>
  }

  lemma StepDown(s: State, a: Action)
    requires Inv(s) && Enabled(s, a)
    ensures Apply(s, a).down.Lossless()
    ensures a.ClientTakeFirst? ==> Apply(s, a).down.first == []
  {
    match a
    case SendAuthOK(line) => SendLossless(s.down, line);
    case ServerTakeSecond(pong) =>
      if pong.Some? {
        SendLossless(s.down, pong.value);
      }
    case ClientFillFirst(n) => FillLossless(s.down, n);
    case ClientFillSecond(n) => FillLossless(s.down, n);
    case ClientTakeFirst =>
      TakeFirstLossless(s.down);
      NothingLeft(s.down.TakeFirst());
    case ClientTakeSecond =>
      TakeSecondLossless(s.down);
    case _ =>
  }

  lemma StepInv(s: State, a: Action)
    requires Inv(s) && Enabled(s, a)
    ensures Inv(Apply(s, a))
  {
    StepUp(s, a);
    StepDown(s, a);
  }

  lemma InvAlways(ss: seq<State>, acts: seq<Action>, i: nat)
    requires Runs.IsRun(Init(), Enabled, Apply, ss, acts) && i < |ss|
    ensures Inv(ss[i])
  {
    forall s, a | Inv(s) && Enabled(s, a) ensures Inv(Apply(s, a)) {
      StepInv(s, a);
    }
    Runs.Always(Init(), Enabled, Apply, Inv, ss, acts, i);
  }

  /** In every interleaving and for every read-ahead: when the second decoder
      takes over the first one's buffer is empty, on the server and on the
      client; the two decoders together have returned exactly the first frames
      sent, and what they have not returned yet is still ahead of the second. */
  lemma HandOffLossless(ss: seq<State>, acts: seq<Action>, i: nat)
    requires Runs.IsRun(Init(), Enabled, Apply, ss, acts) && i < |ss|
    ensures ss[i].up.Lossless() && ss[i].down.Lossless()
    ensures !ss[i].server.ReadingAuth? ==> ss[i].up.first == []
    ensures ss[i].client.Pinging? ==> ss[i].down.first == []
    ensures DecodeAll(ParseLine, ss[i].up.first + ss[i].up.second + ss[i].up.wire) == (ss[i].up.sent[|ss[i].up.got|..], Eof)
    ensures DecodeAll(ParseLine, ss[i].down.first + ss[i].down.second + ss[i].down.wire) == (ss[i].down.sent[|ss[i].down.got|..], Eof)
  {
    InvAlways(ss, acts, i);
    PendingDecodes(ss[i].up);
    PendingDecodes(ss[i].down);
  }

  lemma PendingDecodes(c: Channel)
    requires c.Lossless()
    ensures DecodeAll(ParseLine, c.first + c.second + c.wire) == (c.sent[|c.got|..], Eof)
  {
    LinesLawful();
    UniquelyDecodable(EncodeLine, OneLine, ParseLine, c.sent[|c.got|..]);
  }

  // ---- who sends what ----

  /** The frames the first `n` steps have the client send, and the server. */
  function ClientSends(acts: seq<Action>, n: nat): seq<Line>
    requires n <= |acts|
  {
    if n == 0 then []
    else match acts[n - 1]
      case SendAuth(line) => ClientSends(acts, n - 1) + [line]
      case SendPing(line) => ClientSends(acts, n - 1) + [line]
      case _ => ClientSends(acts, n - 1)
  }

  function ServerSends(acts: seq<Action>, n: nat): seq<Line>
    requires n <= |acts|
  {
    if n == 0 then []
    else match acts[n - 1]
      case SendAuthOK(line) => ServerSends(acts, n - 1) + [line]
      case ServerTakeSecond(pong) => ServerSends(acts, n - 1) + if pong.Some? then [pong.value] else []
      case _ => ServerSends(acts, n - 1)
  }

  /** How many frames the two decoders of the server, and of the client, return. */
  function ServerTakes(acts: seq<Action>, n: nat): nat
    requires n <= |acts|
  {
    if n == 0 then 0
    else ServerTakes(acts, n - 1) + if acts[n - 1].ServerTakeFirst? || acts[n - 1].ServerTakeSecond? then 1 else 0
  }

  function ClientTakes(acts: seq<Action>, n: nat): nat
    requires n <= |acts|
  {
    if n == 0 then 0
    else ClientTakes(acts, n - 1) + if acts[n - 1].ClientTakeFirst? || acts[n - 1].ClientTakeSecond? then 1 else 0
  }

  lemma StepSends(s: State, a: Action)
    requires Inv(s) && Enabled(s, a)
    ensures Apply(s, a).up.sent == s.up.sent + match a case SendAuth(line) => [line] case SendPing(line) => [line] case _ => []
    ensures a.SendAuthOK? ==> Apply(s, a).down.sent == s.down.sent + [a.line]
    ensures a.ServerTakeSecond? && a.pong.Some? ==> Apply(s, a).down.sent == s.down.sent + [a.pong.value]
    ensures !a.SendAuthOK? && !(a.ServerTakeSecond? && a.pong.Some?) ==> Apply(s, a).down.sent == s.down.sent
  {
  }

  lemma StepTakes(s: State, a: Action)
    requires Inv(s) && Enabled(s, a)
    ensures |Apply(s, a).up.got| == |s.up.got| + if a.ServerTakeFirst? || a.ServerTakeSecond? then 1 else 0
    ensures |Apply(s, a).down.got| == |s.down.got| + if a.ClientTakeFirst? || a.ClientTakeSecond? then 1 else 0
  {
  }

  /** Both directions carry exactly what was sent - Auth and the pings one way,
      the reply and a pong for each frame answered the other - and each take
      returns one frame, so by HandOffLossless the next one that was sent. */
  lemma {:induction false} SentExactly(ss: seq<State>, acts: seq<Action>, n: nat)
    requires Runs.IsRun(Init(), Enabled, Apply, ss, acts) && n <= |acts|
    ensures ss[n].up.sent == ClientSends(acts, n) && ss[n].down.sent == ServerSends(acts, n)
    ensures |ss[n].up.got| == ServerTakes(acts, n) && |ss[n].down.got| == ClientTakes(acts, n)
  {
    if n == 0 {
    } else {
      SentExactly(ss, acts, n - 1);
      InvAlways(ss, acts, n - 1);
      assert Enabled(ss[n - 1], acts[n - 1]) && ss[n - 1 + 1] == Apply(ss[n - 1], acts[n - 1]);
      StepSends(ss[n - 1], acts[n - 1]);
      StepTakes(ss[n - 1], acts[n - 1]);
    }
  }
}
