// internal/protocol/protocol.go: newline-delimited control frames behind a
// read-ahead buffer, and the hand-off of a control stream from a first
// decoder to a second one. Bodies are newline-free byte strings; JSON itself
// is not modelled.
module Control {
  import opened Bytes
  import opened Codec
  import opened Streams

  const NEWLINE: Byte := 10
  const FILL := 4096

  type Line = seq<Byte>

  predicate OneLine(body: Line) {
    NEWLINE !in body
  }

  function EncodeLine(body: Line): seq<Byte> {
    body + [NEWLINE]
  }

  /** The place of the first newline, or the length if there is none. */
  function LineEnd(s: seq<Byte>): (n: nat)
    ensures n <= |s|
    ensures forall i :: 0 <= i < n ==> s[i] != NEWLINE
    ensures n < |s| ==> s[n] == NEWLINE
  {
    if s == [] || s[0] == NEWLINE then 0 else
      var n := LineEnd(s[1..]);
      assert forall i :: 1 <= i < n + 1 ==> s[i] == s[1..][i - 1];
      n + 1
  }

  lemma LineLayout(body: Line)
    ensures EncodeLine(body) == body + [10] && (OneLine(body) <==> 10 !in body)
  {
  }

  function ParseLine(s: seq<Byte>): Parsed<Line> {
    var n := LineEnd(s);
    if n < |s| then Parsed(s[..n], s[n + 1..]) else Failed(Eof)
  }

  lemma LineEndIs(s: seq<Byte>, n: nat)
    requires n < |s| && s[n] == NEWLINE
    requires forall i :: 0 <= i < n ==> s[i] != NEWLINE
    ensures LineEnd(s) == n
  {
    var m := LineEnd(s);
  }

  lemma ParseLineEncoded(body: Line, tail: seq<Byte>)
    requires OneLine(body)
    ensures ParseLine(EncodeLine(body) + tail) == Parsed(body, tail)
  {
    var s := EncodeLine(body) + tail;
    assert forall i :: 0 <= i < |body| ==> s[i] == body[i];
    LineEndIs(s, |body|);
    assert s[..|body|] == body;
    assert s[|body| + 1..] == tail;
  }

  lemma ParseLineCut(body: Line, k: nat)
    requires OneLine(body) && k < |EncodeLine(body)|
    ensures ParseLine(EncodeLine(body)[..k]).Failed?
  {
    var s := EncodeLine(body)[..k];
    assert forall i :: 0 <= i < |s| ==> s[i] in body;
    var n := LineEnd(s);
  }

  lemma LinesLawful()
    ensures Lawful(EncodeLine, OneLine, ParseLine)
  {
    forall body, tail | OneLine(body) ensures ParseLine(EncodeLine(body) + tail) == Parsed(body, tail) {
      ParseLineEncoded(body, tail);
    }
    forall body, k | OneLine(body) && 0 <= k < |EncodeLine(body)| ensures ParseLine(EncodeLine(body)[..k]).Failed? {
      ParseLineCut(body, k);
    }
  }

  /** Encode: the body and then the newline, in two writes. */
  method Encode(w: Sink, body: Line)
    modifies w
    ensures w.out == old(w.out) + EncodeLine(body)
  {
    w.Write(body);
    w.Write([NEWLINE]);
  }

  /** A bufio.Reader with what it has read ahead. */
  class Decoder {
    const src: Source
    var buf: seq<Byte>

    constructor (src: Source)
      ensures this.src == src && buf == []
    {
      this.src := src;
      buf := [];
    }

    /** The next frame. Whatever was read beyond it stays in the buffer. */
    method ReadEnvelope() returns (line: Option<Line>)
      modifies this, src
      ensures match ParseLine(old(buf + src.Bytes()))
        case Parsed(body, rest) => line == Some(body) && buf + src.Bytes() == rest
        case Failed(_) => line == None
    {
      var chunk := new Byte[FILL];
      ghost var all := buf + src.Bytes();
      while LineEnd(buf) == |buf|
        invariant buf + src.Bytes() == all
        decreases |src.Bytes()|, |src.chunks|
      {
        var n, eof := src.Read(chunk, 0, FILL);
        if eof {
          assert buf == all;
          return None;
        }
        buf := buf + chunk[..n];
      }
      var n := LineEnd(buf);
      LineStays(buf, src.Bytes(), n);
      line := Some(buf[..n]);
      buf := buf[n + 1..];
    }
  }

  /** A complete line at the head of the buffer is the first line of it all. */
  lemma LineStays(buf: seq<Byte>, more: seq<Byte>, n: nat)
    requires n == LineEnd(buf) < |buf|
    ensures ParseLine(buf + more) == Parsed(buf[..n], buf[n + 1..] + more)
  {
    var s := buf + more;
    assert forall i :: 0 <= i <= n ==> s[i] == buf[i];
    LineEndIs(s, n);
    assert s[..n] == buf[..n];
    DropInto(buf, more, n + 1);
  }

  // ---- when is a hand-off lossless? ----

  lemma {:induction false} DecodedFits(s: seq<Byte>)
    ensures |EncodeAll(EncodeLine, DecodeAll(ParseLine, s).0)| <= |s|
    decreases |s|
  {
    match ParseLine(s)
    case Failed(_) =>
    case Parsed(body, rest) =>
      DecodedFits(rest);
      var more := DecodeAll(ParseLine, rest).0;
      assert ([body] + more)[1..] == more;
  }

  /** A first decoder has taken `k` bytes off the stream to return the first
      frame. A second decoder on the same stream returns the other frames
      exactly when the first one read nothing ahead. */
  lemma HandOffLosslessIff(first: Line, others: seq<Line>, k: nat)
    requires OneLine(first) && AllOk(OneLine, others)
    requires |EncodeLine(first)| <= k <= |EncodeLine(first) + EncodeAll(EncodeLine, others)|
    ensures DecodeAll(ParseLine, (EncodeLine(first) + EncodeAll(EncodeLine, others))[k..]).0 == others
      <==> k == |EncodeLine(first)|
  {
    var left := (EncodeLine(first) + EncodeAll(EncodeLine, others))[k..];
    DecodedFits(left);
    if k == |EncodeLine(first)| {
      assert left == EncodeAll(EncodeLine, others);
      LinesLawful();
      UniquelyDecodable(EncodeLine, OneLine, ParseLine, others);
    }
  }
}
