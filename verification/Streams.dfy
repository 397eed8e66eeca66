// Byte streams: a reader that hands out its bytes in arbitrary chunks, and a
// writer that appends.
module Streams {
  import opened Bytes
  import opened Codec

  /** An io.Reader. `chunks` is what successive reads are able to return; a
      read may return less than a chunk, and an empty chunk is a read of zero
      bytes. After the last chunk the stream is at its end. */
  class Source {
    var chunks: seq<seq<Byte>>

    constructor (chunks: seq<seq<Byte>>)
      ensures this.chunks == chunks
    {
      this.chunks := chunks;
    }

    ghost function Bytes(): seq<Byte>
      reads this
    {
      Flatten(chunks)
    }

    /** One read into `buf[lo..hi]`. */
    method Read(buf: array<Byte>, lo: nat, hi: nat) returns (n: nat, eof: bool)
      requires lo < hi <= buf.Length
      modifies this, buf
      ensures n <= hi - lo && old(Bytes()) == buf[lo..lo + n] + Bytes()
      ensures forall k :: 0 <= k < buf.Length && !(lo <= k < lo + n) ==> buf[k] == old(buf[k])
      ensures eof ==> n == 0 && Bytes() == []
      ensures !eof ==> n > 0 || |chunks| < |old(chunks)|
    {
      if chunks == [] {
        return 0, true;
      }
      var head := chunks[0];
      n := if |head| <= hi - lo then |head| else hi - lo;
      for i := 0 to n
        modifies buf
        invariant buf[lo..lo + i] == head[..i]
        invariant forall k :: 0 <= k < buf.Length && !(lo <= k < lo + i) ==> buf[k] == old(buf[k])
      {
        buf[lo + i] := head[i];
        assert buf[lo..lo + i + 1] == buf[lo..lo + i] + [head[i]];
      }
      eof := false;
      if n < |head| {
        chunks := [head[n..]] + chunks[1..];
      } else {
        chunks := chunks[1..];
      }
      assert head == head[..n] + head[n..];
    }

    /** Fill `buf[lo..hi]`, reading as often as needed. The outcome depends on
        the bytes of the stream alone, never on how they are chunked. */
    method ReadFull(buf: array<Byte>, lo: nat, hi: nat) returns (err: Option<ReadError>)
      requires lo <= hi <= buf.Length
      modifies this, buf
      ensures match TakeBytes(old(Bytes()), hi - lo)
        case Parsed(got, rest) => err == None && buf[lo..hi] == got && Bytes() == rest
        case Failed(e) => err == Some(e)
      ensures forall k :: 0 <= k < buf.Length && !(lo <= k < hi) ==> buf[k] == old(buf[k])
    {
      ghost var all := Bytes();
      ghost var done: seq<Byte> := [];
      var at := lo;
      while at < hi
        invariant lo <= at <= hi && |done| == at - lo && all == done + Bytes()
        invariant forall k :: lo <= k < at ==> buf[k] == done[k - lo]
        invariant forall k :: 0 <= k < buf.Length && !(lo <= k < hi) ==> buf[k] == old(buf[k])
        decreases hi - at, |chunks|
      {
        var n, eof := Read(buf, at, hi);
        ghost var got := buf[at..at + n];
        Associates(done, got, Bytes());
        if eof {
          return Some(if at == lo then Eof else UnexpectedEof);
        }
        done := done + got;
        at := at + n;
      }
      assert buf[lo..hi] == done;
      TakePrefix(done, Bytes());
      err := None;
    }
  }

  /** An io.Writer whose writes succeed; `out` is everything written so far. */
  class Sink {
    var out: seq<Byte>

    constructor ()
      ensures out == []
    {
      out := [];
    }

    method Write(bytes: seq<Byte>)
      modifies this
      ensures out == old(out) + bytes
    {
      out := out + bytes;
    }
  }
}
