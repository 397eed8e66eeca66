// internal/protocol/framing.go: the tunnel-id header and the HELLO, DATAGRAM
// and GOODBYE frames of UDP data streams.
module Framing {
  import opened Bytes
  import opened Codec
  import opened Streams

  const FRAME_HELLO: Byte := 0x00
  const FRAME_DATAGRAM: Byte := 0x01
  const FRAME_GOODBYE: Byte := 0x02
  const MAX_DATAGRAM_LEN := 65535
  const MAX_HELLO_LEN := 255

  datatype Frame =
    | Hello(peer: seq<Byte>)
    | Datagram(data: seq<Byte>)
    | Goodbye

  predicate Fits(f: Frame) {
    match f
    case Hello(peer) => |peer| <= MAX_HELLO_LEN
    case Datagram(data) => |data| <= MAX_DATAGRAM_LEN
    case Goodbye => true
  }

  function EncodeFrame(f: Frame): seq<Byte> {
    match f
    case Hello(peer) => [FRAME_HELLO, |peer| % 256] + peer
    case Datagram(data) => [FRAME_DATAGRAM] + BigEndian(Truncate16(|data|)) + data
    case Goodbye => [FRAME_GOODBYE]
  }

  function ParseTunnelID(s: seq<Byte>): Parsed<Word> {
    match TakeBytes(s, 2)
    case Failed(e) => Failed(e)
    case Parsed(hdr, rest) => Parsed(FromBigEndian(hdr[0], hdr[1]), rest)
  }

  /** What ReadHelloFrame accepts: a HELLO and nothing else. */
  function ParseHello(s: seq<Byte>): Parsed<seq<Byte>> {
    match TakeBytes(s, 2)
    case Failed(e) => Failed(e)
    case Parsed(hdr, rest) => if hdr[0] != FRAME_HELLO then Failed(BadFrame) else TakeBytes(rest, hdr[1])
  }

  /** What ReadFrame accepts. Every piece is its own read, so a stream that
      ends right after the type byte, or right after the length, fails with
      Eof and not with UnexpectedEof. */
  function ParseFrame(s: seq<Byte>): Parsed<Frame> {
    match TakeBytes(s, 1)
    case Failed(e) => Failed(e)
    case Parsed(kind, body) =>
      if kind[0] == FRAME_HELLO then ParseHelloBody(body)
      else if kind[0] == FRAME_DATAGRAM then ParseDatagramBody(body)
      else if kind[0] == FRAME_GOODBYE then Parsed(Goodbye, body)
      else Failed(BadFrame)
  }

  function ParseHelloBody(s: seq<Byte>): Parsed<Frame> {
    match TakeBytes(s, 1)
    case Failed(e) => Failed(e)
    case Parsed(len, rest) =>
      match TakeBytes(rest, len[0])
      case Failed(e) => Failed(e)
      case Parsed(peer, rest') => Parsed(Hello(peer), rest')
  }

  function ParseDatagramBody(s: seq<Byte>): Parsed<Frame> {
    match TakeBytes(s, 2)
    case Failed(e) => Failed(e)
    case Parsed(len, rest) =>
      match TakeBytes(rest, FromBigEndian(len[0], len[1]))
      case Failed(e) => Failed(e)
      case Parsed(data, rest') => Parsed(Datagram(data), rest')
  }

  // ---- writers ----

  method WriteTunnelID(w: Sink, id: Word)
    modifies w
    ensures w.out == old(w.out) + BigEndian(id)
  {
    w.Write(BigEndian(id));
  }

  method WriteHelloFrame(w: Sink, peer: seq<Byte>) returns (ok: bool)
    modifies w
    ensures ok <==> |peer| <= MAX_HELLO_LEN
    ensures w.out == old(w.out) + if ok then EncodeFrame(Hello(peer)) else []
  {
    if |peer| > MAX_HELLO_LEN {
      return false;
    }
    w.Write([FRAME_HELLO, |peer|]);
    if |peer| > 0 {
      w.Write(peer);
    }
    ok := true;
  }

  method WriteDatagramFrame(w: Sink, data: seq<Byte>) returns (ok: bool)
    modifies w
    ensures ok <==> |data| <= MAX_DATAGRAM_LEN
    ensures w.out == old(w.out) + if ok then EncodeFrame(Datagram(data)) else []
  {
    if |data| > MAX_DATAGRAM_LEN {
      return false;
    }
    w.Write([FRAME_DATAGRAM] + BigEndian(|data|));
    if |data| > 0 {
      w.Write(data);
    }
    ok := true;
  }

  // ---- readers ----

  method ReadTunnelID(r: Source) returns (id: Word, err: Option<ReadError>)
    modifies r
    ensures match ParseTunnelID(old(r.Bytes()))
      case Parsed(w, rest) => err == None && id == w && r.Bytes() == rest
      case Failed(e) => err == Some(e)
  {
    id := 0;
    var buf := new Byte[2];
    err := r.ReadFull(buf, 0, 2);
    if err == None {
      id := FromBigEndian(buf[0], buf[1]);
    }
  }

  method ReadHelloFrame(r: Source) returns (peer: seq<Byte>, err: Option<ReadError>)
    modifies r
    ensures match ParseHello(old(r.Bytes()))
      case Parsed(p, rest) => err == None && peer == p && r.Bytes() == rest
      case Failed(e) => err == Some(e)
  {
    peer := [];
    var hdr := new Byte[2];
    err := r.ReadFull(hdr, 0, 2);
    if err != None {
      return;
    }
    if hdr[0] != FRAME_HELLO {
      return [], Some(BadFrame);
    }
    var addr := new Byte[hdr[1]];
    err := r.ReadFull(addr, 0, addr.Length);
    peer := addr[..];
  }

  /** Read any frame. A datagram is read into the caller's buffer when it fits
      there, and into a fresh one otherwise; the result is a copy of it. */
  method ReadFrame(r: Source, buf: array<Byte>) returns (f: Frame, err: Option<ReadError>)
    modifies r, buf
    ensures match ParseFrame(old(r.Bytes()))
      case Parsed(g, rest) => err == None && f == g && r.Bytes() == rest
      case Failed(e) => err == Some(e)
  {
    f := Goodbye;
    var hdr := new Byte[3];
    err := r.ReadFull(hdr, 0, 1);
    if err != None {
      return;
    }
    assert hdr[0] == hdr[0..1][0];
    if hdr[0] == FRAME_HELLO {
      f, err := ReadHelloBody(r, hdr);
    } else if hdr[0] == FRAME_DATAGRAM {
      f, err := ReadDatagramBody(r, hdr, buf);
    } else if hdr[0] != FRAME_GOODBYE {
      err := Some(BadFrame);
    }
  }

  method ReadHelloBody(r: Source, hdr: array<Byte>) returns (f: Frame, err: Option<ReadError>)
    requires hdr.Length == 3
    modifies r, hdr
    ensures match ParseHelloBody(old(r.Bytes()))
      case Parsed(g, rest) => err == None && f == g && r.Bytes() == rest
      case Failed(e) => err == Some(e)
  {
    f := Goodbye;
    err := r.ReadFull(hdr, 1, 2);
    if err != None {
      return;
    }
    assert hdr[1] == hdr[1..2][0];
    var peerBuf := new Byte[hdr[1]];
    err := r.ReadFull(peerBuf, 0, peerBuf.Length);
    f := Hello(peerBuf[..]);
  }

  method ReadDatagramBody(r: Source, hdr: array<Byte>, buf: array<Byte>) returns (f: Frame, err: Option<ReadError>)
    requires hdr.Length == 3 && hdr != buf
    modifies r, hdr, buf
    ensures match ParseDatagramBody(old(r.Bytes()))
      case Parsed(g, rest) => err == None && f == g && r.Bytes() == rest
      case Failed(e) => err == Some(e)
  {
    f := Goodbye;
    err := r.ReadFull(hdr, 1, 3);
    if err != None {
      return;
    }
    assert hdr[1] == hdr[1..3][0] && hdr[2] == hdr[1..3][1];
    var n: nat := FromBigEndian(hdr[1], hdr[2]);
    if n > MAX_DATAGRAM_LEN {
      return Goodbye, Some(BadFrame);
    }
    var dst := buf;
    if buf.Length < n {
      dst := new Byte[n];
    }
    err := r.ReadFull(dst, 0, n);
    f := Datagram(dst[..n]);
  }

  // ---- the frames are uniquely decodable ----

  lemma ParseFrameEncoded(f: Frame, tail: seq<Byte>)
    requires Fits(f)
    ensures ParseFrame(EncodeFrame(f) + tail) == Parsed(f, tail)
  {
    match f
    case Hello(peer) =>
      var body := [|peer|] + (peer + tail);
      assert EncodeFrame(f) + tail == [FRAME_HELLO] + body;
      TakePrefix([FRAME_HELLO], body);
      TakePrefix([|peer|], peer + tail);
      TakePrefix(peer, tail);
    case Datagram(data) =>
      var body := BigEndian(|data|) + (data + tail);
      assert EncodeFrame(f) + tail == [FRAME_DATAGRAM] + body;
      TakePrefix([FRAME_DATAGRAM], body);
      TakePrefix(BigEndian(|data|), data + tail);
      TakePrefix(data, tail);
    case Goodbye =>
      TakePrefix([FRAME_GOODBYE], tail);
  }

  lemma ParseFrameCut(f: Frame, k: nat)
    requires Fits(f) && k < |EncodeFrame(f)|
    ensures ParseFrame(EncodeFrame(f)[..k]).Failed?
  {
    var s := EncodeFrame(f)[..k];
    match f
    case Hello(peer) =>
      if k >= 2 {
        assert s == [FRAME_HELLO] + ([|peer|] + peer[..k - 2]);
        TakePrefix([FRAME_HELLO], [|peer|] + peer[..k - 2]);
        TakePrefix([|peer|], peer[..k - 2]);
      }
    case Datagram(data) =>
      if k >= 3 {
        assert s == [FRAME_DATAGRAM] + (BigEndian(|data|) + data[..k - 3]);
        TakePrefix([FRAME_DATAGRAM], BigEndian(|data|) + data[..k - 3]);
        TakePrefix(BigEndian(|data|), data[..k - 3]);
      }
    case Goodbye =>
  }

  lemma ParseFrameShrinks(s: seq<Byte>)
    ensures ParseFrame(s).Parsed? ==> |ParseFrame(s).rest| < |s|
  {
  }

  lemma FramesLawful()
    ensures Lawful(EncodeFrame, Fits, ParseFrame)
  {
    forall f, tail | Fits(f) ensures ParseFrame(EncodeFrame(f) + tail) == Parsed(f, tail) {
      ParseFrameEncoded(f, tail);
    }
    forall f, k | Fits(f) && 0 <= k < |EncodeFrame(f)| ensures ParseFrame(EncodeFrame(f)[..k]).Failed? {
      ParseFrameCut(f, k);
    }
  }

  /** Reading the frames of a list written one after the other gives back that
      list; reading any part of them cut at `k` gives exactly the frames that
      end before the cut, and then an error. */
  lemma FramesUniquelyDecodable(frames: seq<Frame>, k: nat)
    requires AllOk(Fits, frames) && k <= |EncodeAll(EncodeFrame, frames)|
    ensures DecodeAll(ParseFrame, EncodeAll(EncodeFrame, frames)) == (frames, Eof)
    ensures var m := WhollyContained(EncodeFrame, frames, k);
      && WhollyBefore(EncodeFrame, frames, k, m)
      && DecodeAll(ParseFrame, EncodeAll(EncodeFrame, frames)[..k]).0 == frames[..m]
  {
    FramesLawful();
    UniquelyDecodable(EncodeFrame, Fits, ParseFrame, frames);
    PrefixDecodes(EncodeFrame, Fits, ParseFrame, frames, k);
    WhollyContainedFrontier(EncodeFrame, frames, k);
  }

  lemma TunnelIDRoundTrip(id: Word, tail: seq<Byte>)
    ensures ParseTunnelID(BigEndian(id) + tail) == Parsed(id, tail)
  {
    assert (BigEndian(id) + tail)[..2] == BigEndian(id);
    assert (BigEndian(id) + tail)[2..] == tail;
  }

  lemma HelloRoundTrip(peer: seq<Byte>, tail: seq<Byte>)
    requires |peer| <= MAX_HELLO_LEN
    ensures ParseHello(EncodeFrame(Hello(peer)) + tail) == Parsed(peer, tail)
  {
    var s := EncodeFrame(Hello(peer)) + tail;
    assert s[..2] == [FRAME_HELLO, |peer|] && s[2..] == peer + tail;
  }

  // ---- byte by byte ----

  /** A type byte 0, 1 or 2; the length of an address in one byte, that of a
      datagram in two, the high one first; then the payload. */
  lemma FrameLayout(f: Frame)
    requires Fits(f)
    ensures f.Hello? ==> |f.peer| <= 255 && EncodeFrame(f) == [0, |f.peer|] + f.peer
    ensures f.Datagram? ==> |f.data| <= 65535 && EncodeFrame(f) == [1, |f.data| / 256, |f.data| % 256] + f.data
    ensures f.Goodbye? ==> EncodeFrame(f) == [2]
  {
  }

  lemma IdLayout(id: Word)
    ensures BigEndian(id) == [id / 256, id % 256]
  {
  }
}
