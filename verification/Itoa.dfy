// internal/server/tunnel.go: itoa, which writes a port's decimal digits.
module Itoa {
  import opened Bytes

  const MIN64 := -0x8000_0000_0000_0000
  const MAX64 := 0x7fff_ffff_ffff_ffff

  type Int64 = n: int | MIN64 <= n <= MAX64

  const ZERO: Byte := 48
  const MINUS: Byte := 45

  /** Go's -n on an int. */
  function Negate(n: Int64): (m: Int64)
    ensures n != MIN64 ==> m == -n
    ensures n == MIN64 ==> m == MIN64
  {
    if n == MIN64 then n else -n
  }

  // ---- what a numeral means ----

  type Digit = d: int | 0 <= d < 10

  ghost function Worth(s: seq<Digit>): nat {
    if s == [] then 0 else 10 * Worth(s[..|s| - 1]) + s[|s| - 1]
  }

  /** No leading zero, except in 0 itself. */
  ghost predicate Canonical(s: seq<Digit>) {
    s != [] && (|s| > 1 ==> s[0] != 0)
  }

  function Ascii(s: seq<Digit>): (t: seq<Byte>)
    ensures |t| == |s| && forall i :: 0 <= i < |s| ==> t[i] == '0' as int + s[i]
  {
    if s == [] then [] else [ZERO + s[0]] + Ascii(s[1..])
  }

  /** `t` is a decimal numeral of `n`: a sign if negative, and digits. */
  ghost predicate Denotes(t: seq<Byte>, n: int, digits: seq<Digit>) {
    && Canonical(digits)
    && t == (if n < 0 then ['-' as int] else []) + Ascii(digits)
    && Worth(digits) == if n < 0 then -n else n
  }

  // ---- a number has one numeral ----

  function Numeral(n: nat): (s: seq<Digit>)
    ensures s != []
  {
    if n < 10 then [n] else Numeral(n / 10) + [n % 10]
  }

  lemma {:induction false} NumeralDenotes(n: nat)
    ensures Canonical(Numeral(n)) && Worth(Numeral(n)) == n
    ensures n > 0 ==> Numeral(n)[0] != 0
  {
    var s := Numeral(n);
    if n >= 10 {
      NumeralDenotes(n / 10);
      assert s[..|s| - 1] == Numeral(n / 10);
    } else {
      assert s[..|s| - 1] == [];
    }
  }

  lemma {:induction false} OnlyNumeral(s: seq<Digit>)
    requires Canonical(s)
    ensures s == Numeral(Worth(s))
    ensures s[0] != 0 ==> Worth(s) > 0
    decreases |s|
  {
    var init, last := s[..|s| - 1], s[|s| - 1];
    assert s == init + [last];
    if init != [] {
      assert s[0] == init[0];
      OnlyNumeral(init);
      LastDigit(Worth(init), last);
    }
  }

  lemma LastDigit(w: nat, d: Digit)
    requires w > 0
    ensures Numeral(10 * w + d) == Numeral(w) + [d]
  {
    assert (10 * w + d) / 10 == w && (10 * w + d) % 10 == d;
  }

  /** No two byte strings, and no two strings of digits, denote one number. */
  lemma DenotesOnce(t: seq<Byte>, u: seq<Byte>, n: int, d: seq<Digit>, e: seq<Digit>)
    requires Denotes(t, n, d) && Denotes(u, n, e)
    ensures t == u && d == e
  {
    OnlyNumeral(d);
    OnlyNumeral(e);
  }

  lemma SignAlone(n: int, digits: seq<Digit>)
    ensures !Denotes([MINUS], n, digits)
  {
    var t := (if n < 0 then [MINUS] else []) + Ascii(digits);
    if digits != [] {
      assert t[|t| - 1] == ZERO + digits[|digits| - 1];
    }
  }

  // ---- itoa ----

  function Pow10(k: nat): nat {
    if k == 0 then 1 else 10 * Pow10(k - 1)
  }

  lemma Pow10At19(k: nat)
    requires k == 19
    ensures MAX64 < Pow10(k)
  {
    assert Pow10(10) == 10_000_000_000;
  }

  /** The digits of `left`, which itoa has still to write in front. */
  ghost function InFront(left: int): seq<Byte> {
    if left <= 0 then [] else InFront(left / 10) + [ZERO + left % 10]
  }

  lemma {:induction false} InFrontLength(n: nat, k: nat)
    requires n < Pow10(k)
    ensures |InFront(n)| <= k
  {
    if n == 0 {
    } else {
      InFrontLength(n / 10, k - 1);
    }
  }

  lemma FitsBuffer(n: Int64)
    ensures |InFront(n)| <= 19
  {
    if n > 0 {
      Pow10At19(19);
      InFrontLength(n, 19);
    }
  }

  lemma {:induction false} InFrontIsNumeral(n: nat)
    requires n > 0
    ensures InFront(n) == Ascii(Numeral(n))
  {
    if n >= 10 {
      InFrontIsNumeral(n / 10);
      AsciiAppend(Numeral(n / 10), n % 10);
    } else {
      AsciiAppend([], n);
      assert [] + [n] == Numeral(n);
    }
  }

  lemma {:induction false} AsciiAppend(s: seq<Digit>, d: Digit)
    ensures Ascii(s + [d]) == Ascii(s) + [ZERO + d]
  {
  }

  lemma WriteDigit(left: nat, written: seq<Byte>)
    requires left > 0
    ensures InFront(left / 10) + ([ZERO + left % 10] + written) == InFront(left) + written
    ensures |InFront(left)| > 0
  {
    Associates(InFront(left / 10), [ZERO + left % 10], written);
  }

  lemma Finish(n: Int64, whole: nat, written: seq<Byte>, t: seq<Byte>)
    requires n != 0 && n != MIN64 && whole == (if n < 0 then -n else n)
    requires written == InFront(whole)
    requires t == (if n < 0 then [MINUS] else []) + written
    ensures Denotes(t, n, Numeral(whole))
  {
    NumeralDenotes(whole);
    InFrontIsNumeral(whole);
  }

  lemma ZeroDenotes(digits: seq<Digit>)
    requires digits == [0]
    ensures Denotes([ZERO], 0, digits)
  {
    assert Ascii(digits) == [ZERO] + Ascii(digits[1..]);
    assert digits[..0] == [];
  }

  /** itoa writes the canonical numeral of every int64 but the least one: its
      negation is itself, no digit is written, and only the sign comes out. */
  method Itoa(n: Int64) returns (t: seq<Byte>, ghost digits: seq<Digit>)
    ensures n != MIN64 ==> Denotes(t, n, digits)
    ensures n == MIN64 ==> t == ['-' as int]
  {
    if n == 0 {
      ZeroDenotes([0]);
      return [ZERO], [0];
    }
    var b := new Byte[20];
    var i := b.Length;
    var neg := n < 0;
    var left: Int64 := n;
    if neg {
      left := Negate(left);
    }
    ghost var whole: nat := if left > 0 then left else 0;
    ghost var written: seq<Byte> := [];
    FitsBuffer(left);
    while left > 0
      invariant 0 < i <= 20 && |written| == 20 - i
      invariant forall k :: i <= k < 20 ==> b[k] == written[k - i]
      invariant InFront(left) + written == InFront(whole)
    {
      WriteDigit(left, written);
      i := i - 1;
      b[i] := ZERO + left % 10;
      written := [ZERO + left % 10] + written;
      left := left / 10;
    }
    digits := Numeral(whole);
    if neg {
      i := i - 1;
      b[i] := MINUS;
    }
    t := b[i..];
    assert t == (if neg then [MINUS] else []) + written;
    if n != MIN64 {
      Finish(n, whole, written, t);
    }
  }
}
