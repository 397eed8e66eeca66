// One UDP data stream from end to end: what internal/server/udp.go writes for
// a public peer, what internal/client/client.go reads from it, and back.
module UdpTransport {
  import opened Bytes
  import opened Codec
  import opened Streams
  import opened Framing

  type Payload = seq<Byte>

  /** What a receive into a buffer of MAX_DATAGRAM_LEN bytes can return. */
  predicate Receivable(d: Payload) {
    |d| <= MAX_DATAGRAM_LEN
  }

  function AsFrames(payloads: seq<Payload>): (frames: seq<Frame>)
    ensures |frames| == |payloads|
    ensures forall i :: 0 <= i < |payloads| ==> frames[i] == Datagram(payloads[i])
  {
    seq(|payloads|, i requires 0 <= i < |payloads| => Datagram(payloads[i]))
  }

  function Encoded(payloads: seq<Payload>): seq<Byte> {
    EncodeAll(EncodeFrame, AsFrames(payloads))
  }

  lemma EncodedSnoc(payloads: seq<Payload>, i: nat)
    requires i < |payloads|
    ensures Encoded(payloads[..i + 1]) == Encoded(payloads[..i]) + EncodeFrame(Datagram(payloads[i]))
  {
    assert AsFrames(payloads[..i + 1]) == AsFrames(payloads[..i]) + [Datagram(payloads[i])];
    EncodeAllSnoc(EncodeFrame, AsFrames(payloads[..i]), Datagram(payloads[i]));
  }

  /** Everything the server has written once it forwarded `payloads`. */
  function ServerBytes(id: Word, key: seq<Byte>, payloads: seq<Payload>): seq<Byte> {
    BigEndian(id) + EncodeFrame(Hello(key)) + Encoded(payloads)
  }

  function Content(f: Frame): seq<Payload> {
    if f.Datagram? && f.data != [] then [f.data] else []
  }

  /** What a frame loop passes on: datagrams with content, up to a GOODBYE. */
  function PassedOn(frames: seq<Frame>): seq<Payload> {
    if frames == [] || frames[0].Goodbye? then [] else Content(frames[0]) + PassedOn(frames[1..])
  }

  /** What the frame loop passes on from the bytes of a stream. */
  function Passed(s: seq<Byte>): seq<Payload> {
    PassedOn(DecodeAll(ParseFrame, s).0)
  }

  lemma PassedStep(s: seq<Byte>)
    ensures match ParseFrame(s)
      case Failed(_) => Passed(s) == []
      case Parsed(f, rest) => |rest| < |s| && Passed(s) == if f.Goodbye? then [] else Content(f) + Passed(rest)
  {
    match ParseFrame(s)
    case Failed(_) =>
    case Parsed(f, rest) =>
      ParseFrameShrinks(s);
      DecodeAllStep(ParseFrame, s);
      var more := DecodeAll(ParseFrame, rest).0;
      assert ([f] + more)[1..] == more;
  }

  /** What the client makes of a whole data stream of a UDP tunnel. */
  datatype View = View(id: Word, peer: seq<Byte>, delivered: seq<Payload>)

  function ClientView(s: seq<Byte>): Option<View> {
    match ParseTunnelID(s)
    case Failed(_) => None
    case Parsed(id, rest) =>
      match ParseHello(rest)
      case Failed(_) => None
      case Parsed(peer, body) => Some(View(id, peer, Passed(body)))
  }

  // ---- the two ends ----

  /** One datagram frame per payload: serveUDP's forwarding towards the client,
      and relayUDP's local-to-stream loop on the way back. */
  method SendPayloads(w: Sink, payloads: seq<Payload>)
    requires AllOk(Receivable, payloads)
    modifies w
    ensures w.out == old(w.out) + Encoded(payloads)
  {
    for i := 0 to |payloads|
      invariant w.out == old(w.out) + Encoded(payloads[..i])
    {
      assert Receivable(payloads[i]);
      var sent := WriteDatagramFrame(w, payloads[i]);
      EncodedSnoc(payloads, i);
    }
    assert payloads[..|payloads|] == payloads;
  }

  /** Server side: serveUDP's writes for one peer. */
  method ServePeer(w: Sink, id: Word, key: seq<Byte>, payloads: seq<Payload>) returns (ok: bool)
    requires AllOk(Receivable, payloads)
    modifies w
    ensures ok <==> |key| <= MAX_HELLO_LEN
    ensures w.out == old(w.out) + if ok then ServerBytes(id, key, payloads) else BigEndian(id)
  {
    WriteTunnelID(w, id);
    ok := WriteHelloFrame(w, key);
    if ok {
      SendPayloads(w, payloads);
      Regroup(old(w.out), BigEndian(id), EncodeFrame(Hello(key)), Encoded(payloads));
    }
  }

  /** One turn of the frame loop. */
  method PumpOne(r: Source, buf: array<Byte>) returns (content: seq<Payload>, more: bool)
    modifies r, buf
    ensures Passed(old(r.Bytes())) == content + if more then Passed(r.Bytes()) else []
    ensures more ==> |r.Bytes()| < |old(r.Bytes())|
  {
    PassedStep(r.Bytes());
    var f, err := ReadFrame(r, buf);
    if err != None || f.Goodbye? {
      return [], false;
    }
    content := if f.Datagram? && |f.data| > 0 then [f.data] else [];
    more := true;
  }

  /** The frame loop of relayUDP (stream to local socket) and of pumpUDPBack
      (stream to public peer), with the socket's writes succeeding. */
  method PumpFrames(r: Source) returns (passed: seq<Payload>)
    modifies r
    ensures passed == Passed(old(r.Bytes()))
  {
    var buf := new Byte[MAX_DATAGRAM_LEN];
    passed := [];
    var more := true;
    while more
      invariant Passed(old(r.Bytes())) == passed + if more then Passed(r.Bytes()) else []
      decreases more, |r.Bytes()|
    {
      var content;
      content, more := PumpOne(r, buf);
      passed := passed + content;
    }
  }

  /** Client side: handleData on a stream of a UDP tunnel. */
  method HandleUdpStream(r: Source) returns (v: Option<View>)
    modifies r
    ensures v == ClientView(old(r.Bytes()))
  {
    var id, err := ReadTunnelID(r);
    if err != None {
      return None;
    }
    var peer, err' := ReadHelloFrame(r);
    if err' != None {
      return None;
    }
    var delivered := PumpFrames(r);
    v := Some(View(id, peer, delivered));
  }

  // ---- theorems ----

  lemma {:induction false} PassedOnDatagrams(payloads: seq<Payload>)
    ensures PassedOn(AsFrames(payloads)) == NonEmpty(payloads)
  {
    if payloads == [] {
    } else {
      assert AsFrames(payloads)[1..] == AsFrames(payloads[1..]);
      PassedOnDatagrams(payloads[1..]);
    }
  }

  lemma DatagramsFit(payloads: seq<Payload>)
    requires AllOk(Receivable, payloads)
    ensures AllOk(Framing.Fits, AsFrames(payloads))
  {
    forall i | 0 <= i < |payloads| ensures Framing.Fits(AsFrames(payloads)[i]) {
      assert Receivable(payloads[i]);
    }
  }

  lemma ClientViewOf(id: Word, key: seq<Byte>, body: seq<Byte>)
    requires |key| <= MAX_HELLO_LEN
    ensures ClientView(BigEndian(id) + (EncodeFrame(Hello(key)) + body)) == Some(View(id, key, Passed(body)))
  {
    TunnelIDRoundTrip(id, EncodeFrame(Hello(key)) + body);
    HelloRoundTrip(key, body);
  }

  /** What the frames of the first `k` bytes carry. */
  lemma PassedPrefix(payloads: seq<Payload>, k: nat)
    requires AllOk(Receivable, payloads) && k <= |Encoded(payloads)|
    ensures var m := WhollyContained(EncodeFrame, AsFrames(payloads), k);
      && WhollyBefore(EncodeFrame, AsFrames(payloads), k, m)
      && Passed(Encoded(payloads)[..k]) == NonEmpty(payloads[..m])
  {
    DatagramsFit(payloads);
    FramesUniquelyDecodable(AsFrames(payloads), k);
    var m := WhollyContained(EncodeFrame, AsFrames(payloads), k);
    assert AsFrames(payloads)[..m] == AsFrames(payloads[..m]);
    PassedOnDatagrams(payloads[..m]);
  }

  /** At every moment of the transfer, with any `k` bytes of the frames arrived,
      the client has seen the right tunnel and peer, and has delivered exactly
      the non-empty ones among the datagrams that arrived whole, in order. */
  lemma DeliversInOrder(id: Word, key: seq<Byte>, payloads: seq<Payload>, k: nat)
    requires AllOk(Receivable, payloads) && |key| <= MAX_HELLO_LEN && k <= |Encoded(payloads)|
    ensures var m := WhollyContained(EncodeFrame, AsFrames(payloads), k);
      && WhollyBefore(EncodeFrame, AsFrames(payloads), k, m)
      && ClientView(ServerBytes(id, key, payloads)[..4 + |key| + k]) == Some(View(id, key, NonEmpty(payloads[..m])))
  {
    PassedPrefix(payloads, k);
    ClientViewOf(id, key, Encoded(payloads)[..k]);
    TakeInto(BigEndian(id), EncodeFrame(Hello(key)), Encoded(payloads), k);
  }

  /** End to end: exactly the non-empty datagrams, in order, byte for byte. */
  lemma DeliversExactly(id: Word, key: seq<Byte>, payloads: seq<Payload>)
    requires AllOk(Receivable, payloads) && |key| <= MAX_HELLO_LEN
    ensures ClientView(ServerBytes(id, key, payloads)) == Some(View(id, key, NonEmpty(payloads)))
  {
    ReturnsExactly(payloads);
    ClientViewOf(id, key, Encoded(payloads));
    TakeInto(BigEndian(id), EncodeFrame(Hello(key)), Encoded(payloads), |Encoded(payloads)|);
    assert Encoded(payloads)[..|Encoded(payloads)|] == Encoded(payloads);
  }

  /** The way back: the server passes on exactly the non-empty responses. */
  lemma ReturnsExactly(responses: seq<Payload>)
    requires AllOk(Receivable, responses)
    ensures Passed(Encoded(responses)) == NonEmpty(responses)
  {
    DatagramsFit(responses);
    FramesUniquelyDecodable(AsFrames(responses), 0);
    PassedOnDatagrams(responses);
  }

  /** The payloads of the datagrams among some frames. */
  function Payloads(frames: seq<Frame>): seq<Payload> {
    if frames == [] then []
    else (if frames[0].Datagram? then [frames[0].data] else []) + Payloads(frames[1..])
  }

  lemma {:induction false} PassedOnUntil(frames: seq<Frame>, after: seq<Frame>)
    requires forall i :: 0 <= i < |frames| ==> !frames[i].Goodbye?
    requires after != [] ==> after[0].Goodbye?
    ensures PassedOn(frames + after) == NonEmpty(Payloads(frames))
  {
    if frames == [] {
      assert frames + after == after;
    } else {
      assert (frames + after)[1..] == frames[1..] + after;
      PassedOnUntil(frames[1..], after);
      var more := Payloads(frames[1..]);
      assert frames[0].Datagram? ==> Payloads(frames)[1..] == more;
      assert !frames[0].Datagram? ==> Payloads(frames) == more;
    }
  }

  /** A frame loop passes on exactly the non-empty datagrams before the first
      GOODBYE, in order, whatever HELLOs are among them and whatever follows. */
  lemma PassesUntilGoodbye(frames: seq<Frame>, after: seq<Byte>)
    requires AllOk(Framing.Fits, frames) && forall i :: 0 <= i < |frames| ==> !frames[i].Goodbye?
    ensures Passed(EncodeAll(EncodeFrame, frames)) == NonEmpty(Payloads(frames))
    ensures Passed(EncodeAll(EncodeFrame, frames) + ([FRAME_GOODBYE] + after)) == NonEmpty(Payloads(frames))
  {
    FramesLawful();
    PassedOnUntil(frames, []);
    assert frames + [] == frames;
    UniquelyDecodable(EncodeFrame, Framing.Fits, ParseFrame, frames);
    var tail := [FRAME_GOODBYE] + after;
    DecodeAllEncoded(EncodeFrame, Framing.Fits, ParseFrame, frames, tail);
    GoodbyeFirst(after);
    PassedOnUntil(frames, DecodeAll(ParseFrame, tail).0);
  }

  lemma GoodbyeFirst(after: seq<Byte>)
    ensures DecodeAll(ParseFrame, [FRAME_GOODBYE] + after).0 != []
    ensures DecodeAll(ParseFrame, [FRAME_GOODBYE] + after).0[0] == Goodbye
  {
    var s := [FRAME_GOODBYE] + after;
    assert s[..1] == [FRAME_GOODBYE] && s[1..] == after;
    DecodeAllStep(ParseFrame, s);
  }

  /** Frames are self-delimiting, so the loop needs no peer identity: what one
      stream carries never depends on how its bytes were chunked. */
  method SameForEveryChunking(c1: seq<seq<Byte>>, c2: seq<seq<Byte>>) returns (v1: Option<View>, v2: Option<View>)
    requires Flatten(c1) == Flatten(c2)
    ensures v1 == v2 == ClientView(Flatten(c1))
  {
    var r1 := new Source(c1);
    v1 := HandleUdpStream(r1);
    var r2 := new Source(c2);
    v2 := HandleUdpStream(r2);
  }
}
