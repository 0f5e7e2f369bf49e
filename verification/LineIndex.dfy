/** Byte offsets to line and UTF-16 column. */
module LineIndex {
  // A text is its sequence of Unicode scalar values; Rust holds the UTF-8 bytes.

  import opened Text
  import opened ClassFacts

  const U32: nat := 0x1_0000_0000
  const NEWLINE: nat := 0x0a

  newtype Rune = x: int | 0 <= x < 0x110000
  type Source = seq<Rune>

  function Len8(r: Rune): (n: nat)
    ensures 1 <= n <= 4
  {
    |Utf8(r as nat)|
  }

  function Len16(r: Rune): (n: nat)
    ensures 1 <= n <= 2
  {
    if r < 0x10000 then 1 else 2
  }

  /** The scalar in UTF-16: itself, or a pair of surrogates. */
  function Utf16Of(r: Rune): (units: Utf16)
    ensures |units| > 0
  {
    if r < 0x10000 then [r as CodeUnit]
    else
      var v := r as nat - 0x10000;
      [(0xd800 + v / 0x400) as CodeUnit, (0xdc00 + v % 0x400) as CodeUnit]
  }

  /** They are read back as the scalar, and counted as so many units. */
  lemma Utf16OfIsRead(r: Rune)
    requires !(0xd800 <= r < 0xe000)
    ensures Items(Utf16Of(r), 0) == [Scalar(r as nat)] && Len16(r) == |Utf16Of(r)|
  {
    var units := Utf16Of(r);
    assert Items(units, |units|) == [];
    assert ItemAt(units, 0) == Scalar(r as nat) && Width(units, 0) == |units|;
  }

  function InUtf16(text: Source, j: nat, k: nat): Utf16
    requires j <= k <= |text|
  {
    if j == k then [] else InUtf16(text, j, k - 1) + Utf16Of(text[k - 1])
  }

  /** The byte offset of the boundary before scalar `k`. */
  function Offset(text: Source, k: nat): nat
    requires k <= |text|
  {
    if k == 0 then 0 else Offset(text, k - 1) + Len8(text[k - 1])
  }

  lemma {:induction false} OffsetGrows(text: Source, j: nat, k: nat)
    requires j <= k <= |text|
    ensures k - j <= Offset(text, k) - Offset(text, j)
  {
    if j < k { OffsetGrows(text, j, k - 1); }
  }

  // ----- Line starts -----

  function Bytes(text: Source, k: nat): (b: seq<Byte>)
    requires k <= |text|
    ensures |b| == Offset(text, k)
  {
    if k == 0 then [] else Bytes(text, k - 1) + Utf8(text[k - 1] as nat)
  }

  /** The starts of lines among the first `n` bytes. */
  function ByteStarts(bytes: seq<Byte>, n: nat): seq<nat>
    requires n <= |bytes|
  {
    if n == 0 then [0] else ByteStarts(bytes, n - 1) + if bytes[n - 1] == 10 then [n] else []
  }

  /** The starts of lines among the first `k` scalars. */
  function Starts(text: Source, k: nat): (s: seq<nat>)
    requires k <= |text|
    ensures |s| > 0 && s[0] == 0
  {
    if k == 0 then [0] else Starts(text, k - 1) + if text[k - 1] as nat == NEWLINE then [Offset(text, k)] else []
  }

  method LineStarts(text: Source) returns (starts: seq<nat>)
    ensures starts == Starts(text, |text|)
  {
    var bytes := Bytes(text, |text|);
    starts := [0];
    for i := 0 to |bytes|
      invariant starts == ByteStarts(bytes, i)
    {
      if bytes[i] == 10 { starts := starts + [i + 1]; }
    }
    StartsAreByteStarts(text, |text|);
  }

  lemma {:induction false} ByteStartsPrefix(a: seq<Byte>, b: seq<Byte>, n: nat)
    requires n <= |a|
    ensures ByteStarts(a + b, n) == ByteStarts(a, n)
  {
    if n > 0 { ByteStartsPrefix(a, b, n - 1); }
  }

  predicate NoNewline(piece: seq<Byte>) { forall i :: 0 <= i < |piece| ==> piece[i] != 10 }

  /** Only the scalar of a newline has its byte: the bytes of longer encodings are high. */
  lemma NewlineHasItsByte(r: Rune)
    ensures if r as nat == NEWLINE then Utf8(r as nat) == [10 as Byte] else NoNewline(Utf8(r as nat))
  {
  }

  lemma {:induction false} NoStartInside(a: seq<Byte>, piece: seq<Byte>, n: nat)
    requires NoNewline(piece) && n <= |piece|
    ensures ByteStarts(a + piece, |a| + n) == ByteStarts(a, |a|)
  {
    if n == 0 {
      ByteStartsPrefix(a, piece, |a|);
    } else {
      NoStartInside(a, piece, n - 1);
      assert (a + piece)[|a| + n - 1] == piece[n - 1];
    }
  }

  lemma NewlineStarts(a: seq<Byte>)
    ensures ByteStarts(a + [10 as Byte], |a| + 1) == ByteStarts(a, |a|) + [|a| + 1]
  {
    ByteStartsPrefix(a, [10 as Byte], |a|);
    assert (a + [10 as Byte])[|a|] == 10;
  }

  lemma StartStep(before: seq<Byte>, piece: seq<Byte>, newline: bool)
    requires if newline then piece == [10 as Byte] else NoNewline(piece)
    ensures ByteStarts(before + piece, |before + piece|) ==
      ByteStarts(before, |before|) + if newline then [|before + piece|] else []
  {
    if newline { NewlineStarts(before); } else { NoStartInside(before, piece, |piece|); }
  }

  lemma {:induction false} StartsAreByteStarts(text: Source, k: nat)
    requires k <= |text|
    ensures ByteStarts(Bytes(text, k), |Bytes(text, k)|) == Starts(text, k)
  {
    if k > 0 {
      StartsAreByteStarts(text, k - 1);
      NewlineHasItsByte(text[k - 1]);
      StartStep(Bytes(text, k - 1), Utf8(text[k - 1] as nat), text[k - 1] as nat == NEWLINE);
    }
  }

  // ----- Positions -----

  /** How many starts are at most `offset`. */
  function CountStarts(starts: seq<nat>, n: nat, offset: nat): nat
    requires n <= |starts|
  {
    if n == 0 then 0 else CountStarts(starts, n - 1, offset) + if starts[n - 1] <= offset then 1 else 0
  }

  /** The scalar whose boundary is at `offset`. */
  function BoundaryAt(text: Source, offset: nat, k: nat): (b: nat)
    requires k <= |text|
    ensures b <= k
  {
    if k == 0 || Offset(text, k) <= offset then k else BoundaryAt(text, offset, k - 1)
  }

  function Units(text: Source, j: nat, k: nat): nat
    requires j <= k <= |text|
  {
    if j == k then 0 else Units(text, j, k - 1) + Len16(text[k - 1])
  }

  predicate Ascii(text: Source, j: nat, k: nat)
    requires j <= k <= |text|
  {
    forall i :: j <= i < k ==> text[i] < 0x80
  }

  predicate Boundary(text: Source, offset: nat) {
    exists k :: 0 <= k <= |text| && Offset(text, k) == offset
  }

  lemma {:induction false} BoundaryFound(text: Source, j: nat, k: nat)
    requires j <= k <= |text|
    ensures BoundaryAt(text, Offset(text, j), k) == j
  {
    OffsetGrows(text, j, k);
    if j < k { BoundaryFound(text, j, k - 1); }
  }

  // ----- The reference: line and column counted from the scalars -----

  function Line(text: Source, k: nat): nat
    requires k <= |text|
  {
    if k == 0 then 0 else Line(text, k - 1) + if text[k - 1] as nat == NEWLINE then 1 else 0
  }

  function Column(text: Source, k: nat): nat
    requires k <= |text|
  {
    if k == 0 || text[k - 1] as nat == NEWLINE then 0 else Column(text, k - 1) + Len16(text[k - 1])
  }

  /** The boundary where the line of `k` begins. */
  function LineHead(text: Source, k: nat): (h: nat)
    requires k <= |text|
    ensures h <= k
  {
    if k == 0 || text[k - 1] as nat == NEWLINE then k else LineHead(text, k - 1)
  }

  lemma {:induction false} ColumnIsUnits(text: Source, k: nat)
    requires k <= |text|
    ensures Column(text, k) == Units(text, LineHead(text, k), k)
  {
    if k > 0 && text[k - 1] as nat != NEWLINE { ColumnIsUnits(text, k - 1); }
  }

  lemma {:induction false} UnitsAreUtf16(text: Source, j: nat, k: nat)
    requires j <= k <= |text|
    ensures Units(text, j, k) == |InUtf16(text, j, k)|
  {
    if j < k { UnitsAreUtf16(text, j, k - 1); }
  }

  /** The column of a boundary is the length in UTF-16 of its line up to there, which holds
      no newline. */
  lemma ColumnIsUtf16(text: Source, k: nat)
    requires k <= |text|
    ensures var head := LineHead(text, k);
      && Column(text, k) == |InUtf16(text, head, k)|
      && (head == 0 || text[head - 1] as nat == NEWLINE)
      && (forall i :: head <= i < k ==> text[i] as nat != NEWLINE)
  {
    ColumnIsUnits(text, k);
    UnitsAreUtf16(text, LineHead(text, k), k);
    HeadIsAfterNewline(text, k);
  }

  lemma {:induction false} HeadIsAfterNewline(text: Source, k: nat)
    requires k <= |text|
    ensures var head := LineHead(text, k);
      && (head == 0 || text[head - 1] as nat == NEWLINE)
      && (forall i :: head <= i < k ==> text[i] as nat != NEWLINE)
  {
    if k > 0 && text[k - 1] as nat != NEWLINE { HeadIsAfterNewline(text, k - 1); }
  }

  lemma {:induction false} AsciiUnits(text: Source, j: nat, k: nat)
    requires j <= k <= |text| && Ascii(text, j, k)
    ensures Units(text, j, k) == Offset(text, k) - Offset(text, j)
  {
    if j < k { AsciiUnits(text, j, k - 1); }
  }

  lemma {:induction false} StartsCount(text: Source, k: nat)
    requires k <= |text|
    ensures |Starts(text, k)| == Line(text, k) + 1
    ensures Starts(text, k)[Line(text, k)] == Offset(text, LineHead(text, k))
  {
    if k > 0 { StartsCount(text, k - 1); }
  }

  lemma {:induction false} StartsBefore(text: Source, k: nat)
    requires k <= |text|
    ensures forall i :: 0 <= i < |Starts(text, k)| ==> Starts(text, k)[i] <= Offset(text, k)
  {
    if k > 0 { StartsBefore(text, k - 1); }
  }

  /** The starts up to the whole text are those up to `k` followed by later offsets. */
  lemma {:induction false} StartsSplit(text: Source, j: nat, k: nat)
    requires j <= k <= |text|
    ensures |Starts(text, j)| <= |Starts(text, k)| && Starts(text, k)[..|Starts(text, j)|] == Starts(text, j)
    ensures forall i :: |Starts(text, j)| <= i < |Starts(text, k)| ==> Starts(text, k)[i] > Offset(text, j)
  {
    if j < k {
      StartsSplit(text, j, k - 1);
      OffsetGrows(text, j, k);
    }
  }

  lemma {:induction false} CountOfSplit(starts: seq<nat>, n: nat, m: nat, offset: nat)
    requires n <= |starts| && m <= |starts|
    requires forall i :: 0 <= i < m ==> starts[i] <= offset
    requires forall i :: m <= i < |starts| ==> starts[i] > offset
    ensures CountStarts(starts, n, offset) == if n <= m then n else m
  {
    if n > 0 { CountOfSplit(starts, n - 1, m, offset); }
  }

  /** The number of starts up to a boundary is its line. */
  lemma StartsLocateLine(text: Source, k: nat)
    requires k <= |text|
    ensures CountStarts(Starts(text, |text|), |Starts(text, |text|)|, Offset(text, k)) == Line(text, k) + 1
    ensures Line(text, k) < |Starts(text, |text|)|
    ensures Starts(text, |text|)[Line(text, k)] == Offset(text, LineHead(text, k))
  {
    var all := Starts(text, |text|);
    StartsSplit(text, k, |text|);
    StartsBefore(text, k);
    StartsCount(text, k);
    var few := Starts(text, k);
    assert forall i :: 0 <= i < |few| ==> all[i] == few[i];
    CountOfSplit(all, |all|, |few|, Offset(text, k));
  }

  function Wrapped(line: nat, character: nat): Position {
    Position(line % U32, character % U32)
  }

  /** The position of a byte offset; both numbers are cut to 32 bits. */
  method PositionOf(text: Source, starts: seq<nat>, offset: nat) returns (p: Position)
    requires starts == Starts(text, |text|)
    requires Boundary(text, offset)
    ensures forall k :: 0 <= k <= |text| && Offset(text, k) == offset ==> p == At(text, k)
  {
    ghost var b :| 0 <= b <= |text| && Offset(text, b) == offset;
    BoundaryFound(text, b, |text|);
    StartsLocateLine(text, b);
    forall k | 0 <= k <= |text| && Offset(text, k) == offset ensures k == b { BoundaryFound(text, k, |text|); }
    var count := CountStarts(starts, |starts|, offset);
    var line := if count == 0 then 0 else count - 1;
    var j := BoundaryAt(text, starts[line], |text|);
    BoundaryFound(text, LineHead(text, b), |text|);
    var k := BoundaryAt(text, offset, |text|);
    ColumnIsUnits(text, b);
    if Ascii(text, j, k) {
      AsciiUnits(text, j, k);
      p := Wrapped(line, offset - starts[line]);
    } else {
      p := Wrapped(line, Units(text, j, k));
    }
  }

  /** The position of boundary `k`. */
  function At(text: Source, k: nat): Position
    requires k <= |text|
  {
    Wrapped(Line(text, k), Column(text, k))
  }

  // ----- Positions increase exactly when they fit -----

  predicate Fits(text: Source, k: nat)
    requires k <= |text|
  {
    Line(text, k) < U32 && Column(text, k) < U32
  }

  lemma {:induction false} LineGrows(text: Source, j: nat, k: nat)
    requires j <= k <= |text|
    ensures Line(text, j) <= Line(text, k)
    ensures Line(text, j) == Line(text, k) ==> Column(text, k) >= Column(text, j) + (k - j)
  {
    if j < k { LineGrows(text, j, k - 1); }
  }

  /** A text shorter than 4 GiB always fits. */
  lemma {:induction false} ShortTextsFit(text: Source, k: nat)
    requires k <= |text|
    ensures Line(text, k) <= Offset(text, k) && Column(text, k) <= Offset(text, k)
  {
    if k > 0 { ShortTextsFit(text, k - 1); }
  }

  lemma PositionsIncrease(text: Source, j: nat, k: nat)
    requires j < k <= |text| && Fits(text, j) && Fits(text, k)
    ensures Before(At(text, j), At(text, k))
  {
    LineGrows(text, j, k);
  }

  /** The first boundary that does not fit is placed at or before the one in front of it. */
  lemma {:induction false} FirstMisfit(text: Source, k: nat) returns (m: nat)
    requires k <= |text| && !Fits(text, k)
    ensures 0 < m <= k && Fits(text, m - 1) && !Before(At(text, m - 1), At(text, m))
  {
    if Fits(text, k - 1) {
      m := k;
    } else {
      m := FirstMisfit(text, k - 1);
    }
  }

  /** Positions are strictly increasing on all boundaries of a text exactly when every line
      and column number fits in 32 bits. */
  lemma PositionsIncreaseExactlyWhenTheyFit(text: Source)
    ensures (forall j, k :: 0 <= j < k <= |text| ==> Before(At(text, j), At(text, k)))
      <==> forall k :: 0 <= k <= |text| ==> Fits(text, k)
  {
    if forall k :: 0 <= k <= |text| ==> Fits(text, k) {
      forall j, k | 0 <= j < k <= |text| ensures Before(At(text, j), At(text, k)) {
        assert Fits(text, j) && Fits(text, k);
        PositionsIncrease(text, j, k);
      }
    }
    if k :| 0 <= k <= |text| && !Fits(text, k) {
      var m := FirstMisfit(text, k);
      assert 0 <= m - 1 < m <= |text|;
    }
  }

  // ----- A line that does not fit -----

  function Plain(n: nat): (text: Source)
    ensures |text| == n
  {
    seq(n, i => 0x61)
  }

  lemma {:induction false} PlainColumn(text: Source, k: nat)
    requires k <= |text| && forall i :: 0 <= i < k ==> text[i] < 0x80 && text[i] as nat != NEWLINE
    ensures Line(text, k) == 0 && Column(text, k) == Offset(text, k) == k
  {
    if k > 0 { PlainColumn(text, k - 1); }
  }

  /** In 2^32 letters on one line the first boundary and the last have the same position. */
  lemma LongLineWraps()
    ensures At(Plain(U32), 0) == At(Plain(U32), U32) && !Fits(Plain(U32), U32)
  {
    PlainColumn(Plain(U32), U32);
  }
}
