// What it means for a wire format to be uniquely decodable, stated once for
// every format of the repository: data frames, VPN packets, peer-to-peer
// frames and control lines.
module Codec {
  import opened Bytes

  datatype ReadError =
    | Eof              // nothing at all could be read
    | UnexpectedEof    // the stream ended inside the bytes asked for
    | BadFrame         // the bytes were read but are not a legal frame

  datatype Parsed<+T> = Parsed(value: T, rest: seq<Byte>) | Failed(error: ReadError)

  /** What reading exactly `n` bytes yields, whatever the chunking of the stream. */
  function TakeBytes(s: seq<Byte>, n: nat): Parsed<seq<Byte>> {
    if n <= |s| then Parsed(s[..n], s[n..])
    else Failed(if s == [] then Eof else UnexpectedEof)
  }

  lemma TakePrefix(a: seq<Byte>, b: seq<Byte>)
    ensures TakeBytes(a + b, |a|) == Parsed(a, b)
  {
    assert (a + b)[..|a|] == a && (a + b)[|a|..] == b;
  }

  /** A parser inverts an encoder on the values `ok` admits, and never makes
      anything of an incomplete encoding. */
  ghost predicate Lawful<T(!new)>(enc: T -> seq<Byte>, ok: T -> bool, parse: seq<Byte> -> Parsed<T>) {
    && (forall x, tail :: ok(x) ==> parse(enc(x) + tail) == Parsed(x, tail))
    && (forall x, k :: ok(x) && 0 <= k < |enc(x)| ==> parse(enc(x)[..k]).Failed?)
    && (forall x :: ok(x) ==> enc(x) != [])
    && parse([]) == Failed(Eof)
  }

  ghost predicate AllOk<T>(ok: T -> bool, xs: seq<T>) {
    forall i :: 0 <= i < |xs| ==> ok(xs[i])
  }

  function EncodeAll<T>(enc: T -> seq<Byte>, xs: seq<T>): seq<Byte> {
    if xs == [] then [] else enc(xs[0]) + EncodeAll(enc, xs[1..])
  }

  /** Parse again and again until the first error: the values read, and that error. */
  function DecodeAll<T>(parse: seq<Byte> -> Parsed<T>, s: seq<Byte>): (seq<T>, ReadError)
    decreases |s|
  {
    match parse(s)
    case Failed(e) => ([], e)
    case Parsed(x, rest) =>
      if |rest| < |s| then
        var (xs, e) := DecodeAll(parse, rest);
        ([x] + xs, e)
      else ([], BadFrame)
  }

  lemma DecodeAllStep<T>(parse: seq<Byte> -> Parsed<T>, s: seq<Byte>)
    requires parse(s).Parsed? && |parse(s).rest| < |s|
    ensures DecodeAll(parse, s).0 == [parse(s).value] + DecodeAll(parse, parse(s).rest).0
  {
  }

  /** How many of the values lie wholly within the first `k` bytes of their encoding. */
  function WhollyContained<T>(enc: T -> seq<Byte>, xs: seq<T>, k: nat): (m: nat)
    ensures m <= |xs|
    decreases |xs|
  {
    if xs == [] || k < |enc(xs[0])| then 0
    else 1 + WhollyContained(enc, xs[1..], k - |enc(xs[0])|)
  }

  /** Exactly the first `m` of the values end within the first `k` bytes. */
  ghost predicate WhollyBefore<T>(enc: T -> seq<Byte>, xs: seq<T>, k: nat, m: nat) {
    && m <= |xs|
    && |EncodeAll(enc, xs[..m])| <= k
    && (m < |xs| ==> k < |EncodeAll(enc, xs[..m + 1])|)
  }

  lemma {:induction false} EncodeAllAppend<T>(enc: T -> seq<Byte>, xs: seq<T>, ys: seq<T>)
    ensures EncodeAll(enc, xs + ys) == EncodeAll(enc, xs) + EncodeAll(enc, ys)
  {
    if xs == [] {
      assert xs + ys == ys;
    } else {
      assert (xs + ys)[1..] == xs[1..] + ys;
      EncodeAllAppend(enc, xs[1..], ys);
    }
  }

  lemma EncodeAllSnoc<T>(enc: T -> seq<Byte>, xs: seq<T>, x: T)
    ensures EncodeAll(enc, xs + [x]) == EncodeAll(enc, xs) + enc(x)
  {
    EncodeAllAppend(enc, xs, [x]);
    assert EncodeAll(enc, [x]) == enc(x) + EncodeAll(enc, []);
  }

  lemma {:induction false} WhollyContainedFrontier<T>(enc: T -> seq<Byte>, xs: seq<T>, k: nat)
    ensures WhollyBefore(enc, xs, k, WhollyContained(enc, xs, k))
  {
    if xs != [] && |enc(xs[0])| <= k {
      var m := WhollyContained(enc, xs[1..], k - |enc(xs[0])|);
      WhollyContainedFrontier(enc, xs[1..], k - |enc(xs[0])|);
      assert xs[..m + 1][1..] == xs[1..][..m];
      if m + 1 < |xs| {
        assert xs[..m + 2][1..] == xs[1..][..m + 1];
      }
    } else if xs != [] {
      assert xs[..1] == [xs[0]];
      assert EncodeAll(enc, xs[..1]) == enc(xs[0]) + EncodeAll(enc, xs[..1][1..]);
    }
  }

  /** Decoding an encoded list, followed by anything, returns the list first. */
  lemma {:induction false} DecodeAllEncoded<T(!new)>(
      enc: T -> seq<Byte>, ok: T -> bool, parse: seq<Byte> -> Parsed<T>, xs: seq<T>, tail: seq<Byte>)
    requires Lawful(enc, ok, parse) && AllOk(ok, xs)
    ensures var (ys, e) := DecodeAll(parse, tail);
      DecodeAll(parse, EncodeAll(enc, xs) + tail) == (xs + ys, e)
  {
    if xs == [] {
      assert EncodeAll(enc, xs) + tail == tail;
      assert xs + DecodeAll(parse, tail).0 == DecodeAll(parse, tail).0;
    } else {
      var more := EncodeAll(enc, xs[1..]) + tail;
      DecodeAllEncoded(enc, ok, parse, xs[1..], tail);
      assert ok(xs[0]);
      assert EncodeAll(enc, xs) + tail == enc(xs[0]) + more;
      assert parse(enc(xs[0]) + more) == Parsed(xs[0], more);
      var (ys, e) := DecodeAll(parse, tail);
      assert [xs[0]] + (xs[1..] + ys) == xs + ys;
    }
  }

  /** A concatenation of encodings has only one reading. */
  lemma UniquelyDecodable<T(!new)>(
      enc: T -> seq<Byte>, ok: T -> bool, parse: seq<Byte> -> Parsed<T>, xs: seq<T>)
    requires Lawful(enc, ok, parse) && AllOk(ok, xs)
    ensures DecodeAll(parse, EncodeAll(enc, xs)) == (xs, Eof)
  {
    DecodeAllEncoded(enc, ok, parse, xs, []);
    assert EncodeAll(enc, xs) + [] == EncodeAll(enc, xs);
    assert DecodeAll(parse, []) == ([], Eof);
    assert xs + [] == xs;
  }

  /** Cutting the stream anywhere loses exactly the values that do not lie
      wholly before the cut: no partial value is ever returned. */
  lemma {:induction false} PrefixDecodes<T(!new)>(
      enc: T -> seq<Byte>, ok: T -> bool, parse: seq<Byte> -> Parsed<T>, xs: seq<T>, k: nat)
    requires Lawful(enc, ok, parse) && AllOk(ok, xs) && k <= |EncodeAll(enc, xs)|
    ensures DecodeAll(parse, EncodeAll(enc, xs)[..k]).0 == xs[..WhollyContained(enc, xs, k)]
  {
    if xs == [] {
    } else {
      var first := enc(xs[0]);
      assert ok(xs[0]);
      if k < |first| {
        assert EncodeAll(enc, xs)[..k] == first[..k];
        assert parse(first[..k]).Failed?;
      } else {
        var m := WhollyContained(enc, xs[1..], k - |first|);
        var more := EncodeAll(enc, xs[1..])[..k - |first|];
        PrefixDecodes(enc, ok, parse, xs[1..], k - |first|);
        assert EncodeAll(enc, xs)[..k] == first + more;
        assert parse(first + more) == Parsed(xs[0], more);
        assert [xs[0]] + xs[1..][..m] == xs[..m + 1];
      }
    }
  }
}
