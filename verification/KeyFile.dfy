// internal/crypto/keys.go: the key file, two lines of hexadecimal digits.
module KeyFile {
  import opened Bytes

  type Text = seq<Byte>

  // ---- splitLines ----

  predicate IsBreak(b: Byte) {
    b == 10 || b == 13
  }

  predicate BreakFree(t: Text) {
    forall i :: 0 <= i < |t| ==> !IsBreak(t[i])
  }

  predicate OnlyBreaks(t: Text) {
    forall i :: 0 <= i < |t| ==> IsBreak(t[i])
  }

  function PieceLength(s: Text): (n: nat)
    ensures n <= |s| && BreakFree(s[..n]) && (n < |s| ==> IsBreak(s[n]))
  {
    if s == [] || IsBreak(s[0]) then 0 else 1 + PieceLength(s[1..])
  }

  /** The pieces of `s` between line breaks, empty ones dropped. */
  function Lines(s: Text): seq<Text> {
    if s == [] then []
    else if IsBreak(s[0]) then Lines(s[1..])
    else [s[..PieceLength(s)]] + Lines(s[PieceLength(s)..])
  }

  lemma {:induction false} PieceEnds(s: Text, n: nat)
    requires n <= |s| && BreakFree(s[..n]) && (n < |s| ==> IsBreak(s[n]))
    ensures PieceLength(s) == n
  {
    if n == 0 {
    } else {
      assert s[0] == s[..n][0];
      assert s[1..][..n - 1] == s[..n][1..];
      PieceEnds(s[1..], n - 1);
    }
  }

  lemma FirstLine(s: Text, n: nat)
    requires n < |s| && BreakFree(s[..n]) && IsBreak(s[n])
    ensures Lines(s) == (if n > 0 then [s[..n]] else []) + Lines(s[n + 1..])
  {
    PieceEnds(s, n);
    assert n > 0 ==> s[0] == s[..n][0];
    assert s[n..][1..] == s[n + 1..];
  }

  lemma LastLine(s: Text)
    requires BreakFree(s)
    ensures Lines(s) == if s == [] then [] else [s]
  {
    if s != [] {
      assert s[..|s|] == s;
      PieceEnds(s, |s|);
      assert s[|s|..] == [];
    }
  }

  /** `out` holds the pieces of `s` before `start`. */
  ghost predicate Split(s: Text, start: nat, out: seq<Text>) {
    start <= |s| && out + Lines(s[start..]) == Lines(s)
  }

  lemma NextLine(s: Text, start: nat, i: nat, out: seq<Text>)
    requires Split(s, start, out)
    requires start <= i < |s| && IsBreak(s[i]) && forall k :: start <= k < i ==> !IsBreak(s[k])
    ensures Split(s, i + 1, if i > start then out + [s[start..i]] else out)
  {
    assert s[start..][..i - start] == s[start..i];
    assert s[start..][i - start + 1..] == s[i + 1..];
    FirstLine(s[start..], i - start);
  }

  lemma RestIsLine(s: Text, start: nat, out: seq<Text>)
    requires Split(s, start, out) && forall k :: start <= k < |s| ==> !IsBreak(s[k])
    ensures Lines(s) == if start < |s| then out + [s[start..]] else out
  {
    LastLine(s[start..]);
  }

  method SplitLines(s: Text) returns (out: seq<Text>)
    ensures out == Lines(s)
  {
    out := [];
    var start := 0;
    assert s[0..] == s;
    for i := 0 to |s|
      invariant start <= i && forall k :: start <= k < i ==> !IsBreak(s[k])
      invariant Split(s, start, out)
    {
      if IsBreak(s[i]) {
        NextLine(s, start, i, out);
        out := if i > start then out + [s[start..i]] else out;
        start := i + 1;
      }
    }
    RestIsLine(s, start, out);
    if start < |s| {
      out := out + [s[start..]];
    }
  }

  /** seps[0] pieces[0] seps[1] pieces[1] ... */
  function Spliced(pieces: seq<Text>, seps: seq<Text>): Text
    requires |seps| == |pieces| + 1
  {
    if pieces == [] then seps[0] else seps[0] + pieces[0] + Spliced(pieces[1..], seps[1..])
  }

  /** A cut of `s` into non-empty pieces free of line breaks, and separators of
      nothing but line breaks that are not empty between two pieces. */
  ghost predicate IsCut(s: Text, pieces: seq<Text>, seps: seq<Text>) {
    && |seps| == |pieces| + 1
    && (forall i :: 0 <= i < |pieces| ==> pieces[i] != [] && BreakFree(pieces[i]))
    && (forall i :: 0 <= i < |seps| ==> OnlyBreaks(seps[i]))
    && (forall i :: 0 < i < |pieces| ==> seps[i] != [])
    && s == Spliced(pieces, seps)
  }

  lemma {:induction false} LeadingBreaks(sep: Text, t: Text)
    requires OnlyBreaks(sep)
    ensures Lines(sep + t) == Lines(t)
  {
    if sep == [] {
      assert sep + t == t;
    } else {
      assert (sep + t)[0] == sep[0];
      assert (sep + t)[1..] == sep[1..] + t;
      LeadingBreaks(sep[1..], t);
    }
  }

  lemma LeadingPiece(piece: Text, t: Text)
    requires piece != [] && BreakFree(piece) && (t != [] ==> IsBreak(t[0]))
    ensures Lines(piece + t) == [piece] + Lines(t)
  {
    var s := piece + t;
    assert s[..|piece|] == piece;
    assert s[|piece|..] == t;
    assert s[0] == piece[0];
    PieceEnds(s, |piece|);
  }

  lemma {:induction false} CutGivesLines(s: Text, pieces: seq<Text>, seps: seq<Text>)
    requires IsCut(s, pieces, seps)
    ensures Lines(s) == pieces
    decreases |pieces|
  {
    if pieces == [] {
      assert seps[0] + [] == seps[0];
      LeadingBreaks(seps[0], []);
    } else {
      var t := Spliced(pieces[1..], seps[1..]);
      CutGivesLines(t, pieces[1..], seps[1..]);
      assert OnlyBreaks(seps[1]);
      assert t != [] ==> seps[1] != [] && t[0] == seps[1][0];
      LeadingPiece(pieces[0], t);
      LeadingBreaks(seps[0], pieces[0] + t);
      assert s == seps[0] + (pieces[0] + t);
    }
  }

  lemma {:induction false} LinesAreACut(s: Text) returns (seps: seq<Text>)
    ensures IsCut(s, Lines(s), seps)
    decreases |s|
  {
    if s == [] {
      seps := [[]];
    } else if IsBreak(s[0]) {
      var more := LinesAreACut(s[1..]);
      seps := [[s[0]] + more[0]] + more[1..];
      WidenFirst(s[0], Lines(s), more);
    } else {
      var n := PieceLength(s);
      var more := LinesAreACut(s[n..]);
      seps := [[]] + more;
      var pieces := Lines(s);
      assert seps[1..] == more && pieces[1..] == Lines(s[n..]) && pieces[0] == s[..n];
      assert s == s[..n] + s[n..];
      if pieces[1..] != [] {
        assert n < |s| && IsBreak(s[n]);
        FirstByte(s[n..], pieces[1..], more);
      }
    }
  }

  lemma FirstByte(s: Text, pieces: seq<Text>, seps: seq<Text>)
    requires IsCut(s, pieces, seps) && pieces != []
    ensures s != [] && (seps[0] == [] ==> !IsBreak(s[0]))
  {
    assert pieces[0] != [] && BreakFree(pieces[0]);
    assert s == seps[0] + pieces[0] + Spliced(pieces[1..], seps[1..]);
    assert seps[0] == [] ==> s[0] == pieces[0][0];
  }

  lemma WidenFirst(b: Byte, pieces: seq<Text>, seps: seq<Text>)
    requires |seps| == |pieces| + 1
    ensures Spliced(pieces, [[b] + seps[0]] + seps[1..]) == [b] + Spliced(pieces, seps)
  {
    assert ([[b] + seps[0]] + seps[1..])[1..] == seps[1..];
  }

  /** splitLines gives the one way there is to cut its input. */
  lemma LinesIff(s: Text, pieces: seq<Text>)
    ensures pieces == Lines(s) <==> exists seps :: IsCut(s, pieces, seps)
  {
    var seps := LinesAreACut(s);
    if other :| IsCut(s, pieces, other) {
      CutGivesLines(s, pieces, other);
    }
  }

  function Stripped(s: Text): Text {
    if s == [] then [] else (if s[0] == 10 || s[0] == 13 then [] else [s[0]]) + Stripped(s[1..])
  }

  lemma {:induction false} StripPiece(piece: Text, t: Text)
    requires BreakFree(piece)
    ensures Stripped(piece + t) == piece + Stripped(t)
  {
    if piece == [] {
      assert piece + t == t;
    } else {
      assert (piece + t)[1..] == piece[1..] + t;
      StripPiece(piece[1..], t);
    }
  }

  /** The pieces are not empty, hold no line break, and together are the input
      with its line breaks removed. */
  lemma {:induction false} LinesKeepTheRest(s: Text)
    ensures forall i :: 0 <= i < |Lines(s)| ==> Lines(s)[i] != [] && BreakFree(Lines(s)[i])
    ensures forall i, j :: 0 <= i < |Lines(s)| && 0 <= j < |Lines(s)[i]| ==> Lines(s)[i][j] != 10 && Lines(s)[i][j] != 13
    ensures Flatten(Lines(s)) == Stripped(s)
    decreases |s|
  {
    if s != [] && IsBreak(s[0]) {
      LinesKeepTheRest(s[1..]);
    } else if s != [] {
      var n := PieceLength(s);
      LinesKeepTheRest(s[n..]);
      assert s == s[..n] + s[n..];
      StripPiece(s[..n], s[n..]);
      assert Lines(s)[1..] == Lines(s[n..]);
    }
  }

  // ---- hexadecimal digits ----

  type Nibble = n: int | 0 <= n < 16

  function Digit(n: Nibble): Byte {
    if n < 10 then 48 + n else 87 + n
  }

  /** Both cases are read. */
  function Value(d: Byte): Option<Nibble> {
    if 48 <= d <= 57 then Some(d - 48)
    else if 97 <= d <= 102 then Some(d - 87)
    else if 65 <= d <= 70 then Some(d - 55)
    else None
  }

  function Lower(d: Byte): Byte {
    if 65 <= d <= 90 then d + 32 else d
  }

  function Lowered(t: Text): Text {
    if t == [] then [] else [Lower(t[0])] + Lowered(t[1..])
  }

  function Hex(data: seq<Byte>): Text {
    if data == [] then []
    else [Digit(data[0] / 16), Digit(data[0] % 16)] + Hex(data[1..])
  }

  function Unhex(t: Text): Option<seq<Byte>> {
    if t == [] then Some([])
    else if |t| == 1 then None
    else match (Value(t[0]), Value(t[1]), Unhex(t[2..]))
      case (Some(hi), Some(lo), Some(more)) => Some([Join(hi, lo)] + more)
      case _ => None
  }

  /** `d` is the hexadecimal digit of `n`, in either case. */
  ghost predicate IsDigitOf(d: Byte, n: Nibble) {
    d == "0123456789abcdef"[n] as int || d == "0123456789ABCDEF"[n] as int
  }

  /** `t` is `data` in hexadecimal, two digits a byte, the high one first. */
  ghost predicate IsHexOf(t: Text, data: seq<Byte>) {
    && |t| == 2 * |data|
    && forall i :: 0 <= i < |data| ==> IsDigitOf(t[2 * i], data[i] / 16) && IsDigitOf(t[2 * i + 1], data[i] % 16)
  }

  lemma ValueIsDigit(d: Byte, n: Nibble)
    ensures Value(d) == Some(n) <==> IsDigitOf(d, n)
    ensures Digit(n) == "0123456789abcdef"[n] as int
  {
  }

  lemma DigitIff(d: Byte, n: Nibble)
    ensures Value(d) == Some(n) <==> Lower(d) == Digit(n)
    ensures Lower(Digit(n)) == Digit(n) && !IsBreak(Digit(n))
  {
  }

  function Join(hi: Nibble, lo: Nibble): Byte {
    hi * 16 + lo
  }

  /** Decoding accepts exactly the encodings, in any mix of cases. */
  lemma {:induction false} UnhexIff(t: Text, data: seq<Byte>)
    ensures Unhex(t) == Some(data) <==> Lowered(t) == Hex(data)
    decreases |t|
  {
    if |t| < 2 || data == [] {
    } else {
      UnhexIff(t[2..], data[1..]);
      var n, m := data[0] / 16, data[0] % 16;
      DigitIff(t[0], n);
      DigitIff(t[1], m);
      assert t[1..][1..] == t[2..];
      assert Lowered(t) == [Lower(t[0]), Lower(t[1])] + Lowered(t[2..]);
      assert Lowered(t)[2..] == Lowered(t[2..]);
      assert Hex(data)[2..] == Hex(data[1..]);
      assert Unhex(t) == Some(data) ==> data[1..] == Unhex(t[2..]).value;
      assert [Join(n, m)] + data[1..] == data;
    }
  }

  /** Decoding accepts exactly what is hexadecimal, and gives what it stands for. */
  lemma {:induction false} UnhexExact(t: Text, data: seq<Byte>)
    ensures Unhex(t) == Some(data) <==> IsHexOf(t, data)
    decreases |t|
  {
    if |t| < 2 || data == [] {
    } else {
      var n, m := data[0] / 16, data[0] % 16;
      UnhexExact(t[2..], data[1..]);
      ValueIsDigit(t[0], n);
      ValueIsDigit(t[1], m);
      HexOfTail(t, data);
      UnhexStep(t, data);
    }
  }

  lemma UnhexStep(t: Text, data: seq<Byte>)
    requires |t| >= 2 && data != []
    ensures Unhex(t) == Some(data) <==>
      Value(t[0]) == Some(data[0] / 16) && Value(t[1]) == Some(data[0] % 16) && Unhex(t[2..]) == Some(data[1..])
  {
    assert [Join(data[0] / 16, data[0] % 16)] + data[1..] == data;
    assert Unhex(t) == Some(data) ==> data[1..] == Unhex(t[2..]).value;
  }

  lemma HexOfTail(t: Text, data: seq<Byte>)
    requires |t| >= 2 && data != []
    ensures IsHexOf(t, data) <==>
      IsDigitOf(t[0], data[0] / 16) && IsDigitOf(t[1], data[0] % 16) && IsHexOf(t[2..], data[1..])
  {
    assert forall i :: 0 <= i < |data[1..]| ==> data[1..][i] == data[i + 1];
    if IsHexOf(t, data) {
      forall i | 0 <= i < |data[1..]|
        ensures IsDigitOf(t[2..][2 * i], data[1..][i] / 16) && IsDigitOf(t[2..][2 * i + 1], data[1..][i] % 16)
      {
        assert IsDigitOf(t[2 * (i + 1)], data[i + 1] / 16) && IsDigitOf(t[2 * (i + 1) + 1], data[i + 1] % 16);
      }
    }
    if IsDigitOf(t[0], data[0] / 16) && IsDigitOf(t[1], data[0] % 16) && IsHexOf(t[2..], data[1..]) {
      forall i | 0 <= i < |data| ensures IsDigitOf(t[2 * i], data[i] / 16) && IsDigitOf(t[2 * i + 1], data[i] % 16) {
        if i > 0 {
          assert IsDigitOf(t[2..][2 * (i - 1)], data[1..][i - 1] / 16) && IsDigitOf(t[2..][2 * (i - 1) + 1], data[1..][i - 1] % 16);
        }
      }
    }
  }

  ghost predicate IsHexDigit(d: Byte) {
    ('0' as int <= d <= '9' as int) || ('a' as int <= d <= 'f' as int) || ('A' as int <= d <= 'F' as int)
  }

  /** And it fails exactly on an odd length or a byte that is no digit. */
  lemma {:induction false} UnhexFailsIff(t: Text)
    ensures Unhex(t) == None <==> |t| % 2 == 1 || exists i :: 0 <= i < |t| && !IsHexDigit(t[i])
    decreases |t|
  {
    if |t| >= 2 {
      UnhexFailsIff(t[2..]);
      assert forall i :: 0 <= i < |t[2..]| ==> t[2..][i] == t[i + 2];
      assert Unhex(t) == None <==> !IsHexDigit(t[0]) || !IsHexDigit(t[1]) || Unhex(t[2..]) == None;
      if i :| 0 <= i < |t| && !IsHexDigit(t[i]) {
        assert i >= 2 ==> !IsHexDigit(t[2..][i - 2]);
      }
    } else if |t| == 0 {
    } else {
      assert |t| % 2 == 1;
    }
  }

  lemma {:induction false} HexText(data: seq<Byte>)
    ensures |Hex(data)| == 2 * |data| && BreakFree(Hex(data)) && Lowered(Hex(data)) == Hex(data)
  {
    if data == [] {
    } else {
      HexText(data[1..]);
      DigitIff(0, data[0] / 16);
      DigitIff(0, data[0] % 16);
      var s, t := Hex(data), Hex(data[1..]);
      assert s[1..][1..] == t;
      assert Lowered(s) == [Lower(s[0])] + ([Lower(s[1])] + Lowered(t));
    }
  }

  // ---- the key file ----

  const KEYPAIR_SIZE := 32

  type Key = k: seq<Byte> | |k| == KEYPAIR_SIZE witness seq(KEYPAIR_SIZE, _ => 0)

  datatype Keypair = Keypair(public: Key, private: Key)

  datatype Error = TooFewLines | BadHex | WrongSize

  datatype Result<+T> = Ok(value: T) | Err(error: Error)

  function ParseKey(s: Text): Result<Key> {
    match Unhex(s)
    case None => Err(BadHex)
    case Some(b) => if |b| == KEYPAIR_SIZE then var k: Key := b; Ok(k) else Err(WrongSize)
  }

  function Parse(s: Text): Result<Keypair> {
    var lines := Lines(s);
    if |lines| < 2 then Err(TooFewLines)
    else
      match ParseKey(lines[0])
      case Err(e) => Err(e)
      case Ok(public) =>
        match ParseKey(lines[1])
        case Err(e) => Err(e)
        case Ok(private) => Ok(Keypair(public, private))
  }

  method ParseFromLines(b: Text) returns (r: Result<Keypair>)
    ensures r == Parse(b)
  {
    var lines := SplitLines(b);
    if |lines| < 2 {
      return Err(TooFewLines);
    }
    var public := ParseKey(lines[0]);
    if public.Err? {
      return Err(public.error);
    }
    var private := ParseKey(lines[1]);
    if private.Err? {
      return Err(private.error);
    }
    return Ok(Keypair(public.value, private.value));
  }

  function Saved(kp: Keypair): Text {
    Hex(kp.public) + [10] + Hex(kp.private) + [10]
  }

  /** A file holds a keypair exactly when its first two lines are the keys'
      digits, in any mix of cases. */
  lemma ParseIff(s: Text, kp: Keypair)
    ensures Parse(s) == Ok(kp) <==> |Lines(s)| >= 2 && Lowered(Lines(s)[0]) == Hex(kp.public) && Lowered(Lines(s)[1]) == Hex(kp.private)
    ensures Parse(s) == Ok(kp) <==> |Lines(s)| >= 2 && IsHexOf(Lines(s)[0], kp.public) && IsHexOf(Lines(s)[1], kp.private)
  {
    if |Lines(s)| >= 2 {
      UnhexIff(Lines(s)[0], kp.public);
      UnhexIff(Lines(s)[1], kp.private);
      UnhexExact(Lines(s)[0], kp.public);
      UnhexExact(Lines(s)[1], kp.private);
    }
  }

  /** Otherwise the first defect is reported: too few lines, a line that is not
      hexadecimal, or one of another length. */
  lemma ParseErrors(s: Text)
    ensures Parse(s) == Err(TooFewLines) <==> |Lines(s)| < 2
    ensures |Lines(s)| >= 2 && !IsKey(Lines(s)[0]) ==> Parse(s) == Err(KeyError(Lines(s)[0]))
    ensures |Lines(s)| >= 2 && IsKey(Lines(s)[0]) && !IsKey(Lines(s)[1]) ==> Parse(s) == Err(KeyError(Lines(s)[1]))
    ensures |Lines(s)| >= 2 && IsKey(Lines(s)[0]) && IsKey(Lines(s)[1]) ==> Parse(s).Ok?
  {
    forall t ensures ParseKey(t).Ok? <==> IsKey(t) {
      KeyParses(t);
    }
    forall t ensures !IsKey(t) ==> ParseKey(t) == Err(KeyError(t)) {
      KeyParses(t);
    }
  }

  /** 64 hexadecimal digits. */
  ghost predicate IsKey(t: Text) {
    |t| == 64 && forall i :: 0 <= i < |t| ==> IsHexDigit(t[i])
  }

  ghost function KeyError(t: Text): Error {
    if |t| % 2 == 1 || exists i :: 0 <= i < |t| && !IsHexDigit(t[i]) then BadHex else WrongSize
  }

  lemma KeyParses(t: Text)
    ensures ParseKey(t).Ok? <==> IsKey(t)
    ensures !IsKey(t) ==> ParseKey(t) == Err(KeyError(t))
  {
    UnhexFailsIff(t);
    if Unhex(t).Some? {
      UnhexExact(t, Unhex(t).value);
    }
  }

  /** A file written with CR LF line ends is read back too. */
  lemma CrLfRoundTrip(kp: Keypair)
    ensures Parse(Hex(kp.public) + [13, 10] + Hex(kp.private) + [13, 10]) == Ok(kp)
  {
    var a, b := Hex(kp.public), Hex(kp.private);
    var seps: seq<Text> := [[], [13, 10], [13, 10]];
    HexText(kp.public);
    HexText(kp.private);
    TwoLinesAreACut(a, b, seps);
    EndedLines(a, b, seps[1]);
    assert [a, b] + [] == [a, b];
    KeyLinesRoundTrip(kp, a + seps[1] + b + seps[2], [], seps);
  }

  /** Two lines of a keypair's digits are read back as that keypair, however
      the lines are broken and whatever lines follow. */
  lemma KeyLinesRoundTrip(kp: Keypair, s: Text, more: seq<Text>, seps: seq<Text>)
    requires IsCut(s, [Hex(kp.public), Hex(kp.private)] + more, seps)
    ensures Parse(s) == Ok(kp)
  {
    HexText(kp.public);
    HexText(kp.private);
    CutGivesLines(s, [Hex(kp.public), Hex(kp.private)] + more, seps);
    ParseIff(s, kp);
  }

  /** What was saved is read back, for every keypair. */
  lemma SavedRoundTrip(kp: Keypair)
    ensures Parse(Saved(kp)) == Ok(kp)
  {
    var own, seps: seq<Text> := [Hex(kp.public), Hex(kp.private)], [[], [10], [10]];
    SavedIsCut(kp, seps);
    assert own + [] == own;
    KeyLinesRoundTrip(kp, Saved(kp), [], seps);
  }

  lemma TwoLines(a: Text, b: Text, seps: seq<Text>)
    requires |seps| == 3
    ensures Spliced([a, b], seps) == seps[0] + a + (seps[1] + b + seps[2])
  {
    var last: seq<Text> := [b];
    assert [a, b][1..] == last && last[1..] == [];
    assert Spliced(last, seps[1..]) == seps[1] + b + Spliced(last[1..], seps[2..]);
  }

  lemma TwoLinesAreACut(a: Text, b: Text, seps: seq<Text>)
    requires a != [] && BreakFree(a) && b != [] && BreakFree(b)
    requires |seps| == 3 && seps[1] != [] && OnlyBreaks(seps[0]) && OnlyBreaks(seps[1]) && OnlyBreaks(seps[2])
    ensures IsCut(seps[0] + a + (seps[1] + b + seps[2]), [a, b], seps)
  {
    TwoLines(a, b, seps);
  }

  lemma EndedLines(a: Text, b: Text, lf: Text)
    ensures a + lf + b + lf == [] + a + (lf + b + lf)
  {
  }

  lemma SavedIsCut(kp: Keypair, seps: seq<Text>)
    requires |seps| == 3 && seps[0] == [] && seps[1] == [10] && seps[2] == [10]
    ensures IsCut(Saved(kp), [Hex(kp.public), Hex(kp.private)], seps)
  {
    HexText(kp.public);
    HexText(kp.private);
    TwoLinesAreACut(Hex(kp.public), Hex(kp.private), seps);
    EndedLines(Hex(kp.public), Hex(kp.private), seps[1]);
  }

  /** LoadOrGenerate's file. */
  class Store {
    var content: Option<Text>

    /** `generated` is the keypair GenerateKeypair would give. Once a load has
        succeeded, every later one gives the same keypair. */
    method LoadOrGenerate(generated: Keypair) returns (r: Result<Keypair>)
      modifies this
      ensures old(content).Some? ==> content == old(content)
      ensures old(content) == None ==> r == Ok(generated)
      ensures content.Some? && Parse(content.value) == r
    {
      if content.Some? {
        r := ParseFromLines(content.value);
        return;
      }
      content := Some(Saved(generated));
      SavedRoundTrip(generated);
      r := Ok(generated);
    }
  }
}
