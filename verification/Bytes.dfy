// Bytes, 16-bit words and byte strings, shared by every wire format.
module Bytes {

  type Byte = b: int | 0 <= b < 256

  type Word = w: int | 0 <= w < 0x1_0000

  datatype Option<+T> = None | Some(value: T)

  /** The two bytes of a word, most significant first. */
  function BigEndian(w: Word): (s: seq<Byte>)
    ensures |s| == 2 && 256 * (s[0] as int) + s[1] as int == w
    ensures FromBigEndian(s[0], s[1]) == w
  {
    [w / 256, w % 256]
  }

  /** Go's b++ on a byte. */
  function Increment(b: Byte): (r: Byte)
    ensures r == (b + 1) % 256
  {
    if b == 255 then 0 else b + 1
  }

  /** A byte counter after `n` increments from 0. */
  function Counted(n: nat): Byte {
    if n == 0 then 0 else Increment(Counted(n - 1))
  }

  lemma {:induction false} CountedBelow256(n: nat)
    requires n <= 256
    ensures Counted(n) == if n == 256 then 0 else n
  {
    if n == 0 {
    } else {
      CountedBelow256(n - 1);
    }
  }

  /** Go's byte(n). */
  function Truncate8(n: nat): (b: Byte)
    ensures n < 256 ==> b == n
  {
    n % 256
  }

  /** Go's uint16(n). */
  function Truncate16(n: nat): (w: Word)
    ensures n < 0x1_0000 ==> w == n
  {
    n % 0x1_0000
  }

  function FromBigEndian(hi: Byte, lo: Byte): Word {
    hi * 256 + lo
  }

  function Flatten<T>(parts: seq<seq<T>>): seq<T> {
    if parts == [] then [] else parts[0] + Flatten(parts[1..])
  }

  lemma {:induction false} FlattenAppend<T>(parts: seq<seq<T>>, last: seq<T>)
    ensures Flatten(parts + [last]) == Flatten(parts) + last
  {
    if parts == [] {
      assert parts + [last] == [last];
    } else {
      assert (parts + [last])[1..] == parts[1..] + [last];
      FlattenAppend(parts[1..], last);
    }
  }

  function NonEmpty(parts: seq<seq<Byte>>): seq<seq<Byte>> {
    if parts == [] then []
    else (if parts[0] != [] then [parts[0]] else []) + NonEmpty(parts[1..])
  }

  lemma Associates<T>(a: seq<T>, b: seq<T>, c: seq<T>)
    ensures a + b + c == a + (b + c)
  {
  }

  lemma Regroup<T>(a: seq<T>, b: seq<T>, c: seq<T>, d: seq<T>)
    ensures a + b + c + d == a + (b + c + d)
  {
  }

  lemma TakeInto<T>(a: seq<T>, b: seq<T>, c: seq<T>, k: nat)
    requires k <= |c|
    ensures (a + b + c)[..|a| + |b| + k] == a + (b + c[..k])
    ensures a + b + c == a + (b + c)
  {
  }

  lemma DropInto<T>(a: seq<T>, b: seq<T>, k: nat)
    requires k <= |a|
    ensures (a + b)[k..] == a[k..] + b
  {
  }
}
