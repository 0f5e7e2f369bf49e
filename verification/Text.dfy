/** Byte accounting of UTF-16 strings: raw UTF-8 and JSON wire length. */
module Text {
  // The specification quotes a string as QuoteJSONString does (section 25.5.2.3 of
  // ECMA-262) and encodes the result in UTF-8 (section 3 of RFC 3629); the counting loop
  // of the parent is proved to return exactly the length of those bytes.

  newtype CodeUnit = x: int | 0 <= x < 0x10000
  newtype Byte = x: int | 0 <= x < 0x100
  type Utf16 = seq<CodeUnit>

  predicate HighSurrogate(c: CodeUnit) { 0xd800 <= c <= 0xdbff }
  predicate LowSurrogate(c: CodeUnit) { 0xdc00 <= c <= 0xdfff }
  predicate PairAt(s: Utf16, i: nat) {
    i + 1 < |s| && HighSurrogate(s[i]) && LowSurrogate(s[i + 1])
  }

  /** One element of the string seen as Unicode: a scalar value or a lone surrogate. */
  datatype Item = Scalar(value: nat) | Lone(unit: CodeUnit)

  function ItemAt(s: Utf16, i: nat): Item
    requires i < |s|
  {
    if PairAt(s, i) then
      Scalar(0x10000 + (s[i] as int - 0xd800) * 0x400 + (s[i + 1] as int - 0xdc00))
    else if HighSurrogate(s[i]) || LowSurrogate(s[i]) then Lone(s[i])
    else Scalar(s[i] as int)
  }

  function Width(s: Utf16, i: nat): nat
    requires i < |s|
  {
    if PairAt(s, i) then 2 else 1
  }

  /** The string from index `i` on, as Unicode items. */
  function Items(s: Utf16, i: nat): seq<Item>
    requires i <= |s|
    decreases |s| - i
  {
    if i == |s| then [] else [ItemAt(s, i)] + Items(s, i + Width(s, i))
  }

  /** UTF-8 of one scalar value. */
  function Utf8(v: nat): (bytes: seq<Byte>)
    requires v < 0x110000
    ensures |bytes| == if v < 0x80 then 1 else if v < 0x800 then 2 else if v < 0x10000 then 3 else 4
  {
    if v < 0x80 then [v as Byte]
    else if v < 0x800 then [(0xc0 + v / 0x40) as Byte, (0x80 + v % 0x40) as Byte]
    else if v < 0x10000 then
      [(0xe0 + v / 0x1000) as Byte, (0x80 + v / 0x40 % 0x40) as Byte, (0x80 + v % 0x40) as Byte]
    else
      [(0xf0 + v / 0x40000) as Byte, (0x80 + v / 0x1000 % 0x40) as Byte,
       (0x80 + v / 0x40 % 0x40) as Byte, (0x80 + v % 0x40) as Byte]
  }

  predicate Trails(b: Byte) { 0x80 <= b < 0xc0 }

  /** The scalar value that up to four bytes stand for, the first of them leading. */
  function Decoded8(bytes: seq<Byte>): int {
    if |bytes| == 1 then bytes[0] as int
    else if |bytes| == 2 then (bytes[0] as int - 0xc0) * 0x40 + (bytes[1] as int - 0x80)
    else if |bytes| == 3 then
      (bytes[0] as int - 0xe0) * 0x1000 + (bytes[1] as int - 0x80) * 0x40 + (bytes[2] as int - 0x80)
    else if |bytes| == 4 then
      (bytes[0] as int - 0xf0) * 0x40000 + (bytes[1] as int - 0x80) * 0x1000 + (bytes[2] as int - 0x80) * 0x40
      + (bytes[3] as int - 0x80)
    else -1
  }

  /** The leading byte tells how many there are, and the others trail it. */
  predicate Framed(bytes: seq<Byte>) {
    && bytes != [] && (forall i :: 1 <= i < |bytes| ==> Trails(bytes[i]))
    && !Trails(bytes[0]) && bytes[0] < 0xf8
    && |bytes| == if bytes[0] < 0x80 then 1 else if bytes[0] < 0xe0 then 2 else if bytes[0] < 0xf0 then 3 else 4
  }

  lemma DigitsOf(v: nat)
    ensures v == v / 0x40 * 0x40 + v % 0x40
    ensures v / 0x1000 == v / 0x40 / 0x40 && v / 0x40000 == v / 0x1000 / 0x40
  {
  }

  lemma FourIsRead(v: nat)
    requires 0x10000 <= v < 0x110000
    ensures Decoded8(Utf8(v)) == v && Framed(Utf8(v))
  {
    DigitsOf(v);
    DigitsOf(v / 0x40);
    DigitsOf(v / 0x1000);
  }

  lemma ThreeIsRead(v: nat)
    requires 0x800 <= v < 0x10000
    ensures Decoded8(Utf8(v)) == v && Framed(Utf8(v))
  {
    DigitsOf(v);
    DigitsOf(v / 0x40);
  }

  /** The bytes of a scalar value are read back as it. */
  lemma Utf8IsRead(v: nat)
    requires v < 0x110000
    ensures Decoded8(Utf8(v)) == v && Framed(Utf8(v))
  {
    if v >= 0x10000 { FourIsRead(v); } else if v >= 0x800 { ThreeIsRead(v); }
  }

  // ----- The two encodings the parent accounts for -----

  /** Raw UTF-8; a lone surrogate is written as U+FFFD, as `Buffer.byteLength` counts it. */
  function RawItem(x: Item): seq<Byte>
    requires x.Scalar? ==> x.value < 0x110000
  {
    Utf8(if x.Scalar? then x.value else 0xfffd)
  }

  predicate ShortEscape(v: nat) {
    v == 0x22 || v == 0x5c || v == 0x08 || v == 0x09 || v == 0x0a || v == 0x0c || v == 0x0d
  }

  function EscapeLetter(v: nat): nat
    requires ShortEscape(v)
  {
    if v == 0x08 then 0x62 else if v == 0x09 then 0x74 else if v == 0x0a then 0x6e
    else if v == 0x0c then 0x66 else if v == 0x0d then 0x72 else v
  }

  function HexDigit(d: nat): nat
    requires d < 16
  {
    if d < 10 then 0x30 + d else 0x61 + (d - 10)
  }

  function UnicodeEscape(v: nat): seq<nat>
    requires v < 0x10000
  {
    [0x5c, 0x75, HexDigit(v / 0x1000), HexDigit(v / 0x100 % 0x10), HexDigit(v / 0x10 % 0x10), HexDigit(v % 0x10)]
  }

  /** The code points QuoteJSONString emits for one element. */
  function QuotedItem(x: Item): (points: seq<nat>)
    requires x.Scalar? ==> x.value < 0x110000
    ensures forall i :: 0 <= i < |points| ==> points[i] < 0x110000
  {
    match x
    case Lone(u) => UnicodeEscape(u as nat)
    case Scalar(v) =>
      if ShortEscape(v) then [0x5c, EscapeLetter(v)]
      else if v < 0x20 then UnicodeEscape(v)
      else [v]
  }

  function Encode(points: seq<nat>): seq<Byte>
    requires forall i :: 0 <= i < |points| ==> points[i] < 0x110000
  {
    if points == [] then [] else Utf8(points[0]) + Encode(points[1..])
  }

  ghost predicate Legal(items: seq<Item>) {
    forall i :: 0 <= i < |items| && items[i].Scalar? ==> items[i].value < 0x110000
  }

  function RawOf(items: seq<Item>): seq<Byte>
    requires Legal(items)
  {
    if items == [] then [] else RawItem(items[0]) + RawOf(items[1..])
  }

  function QuotedOf(items: seq<Item>): (points: seq<nat>)
    requires Legal(items)
    ensures forall i :: 0 <= i < |points| ==> points[i] < 0x110000
  {
    if items == [] then [] else QuotedItem(items[0]) + QuotedOf(items[1..])
  }

  lemma {:induction false} ItemsLegal(s: Utf16, i: nat)
    requires i <= |s|
    ensures Legal(Items(s, i))
    decreases |s| - i
  {
    if i < |s| {
      ItemsLegal(s, i + Width(s, i));
    }
  }

  /** The UTF-8 bytes of `s`. */
  ghost function RawEncoding(s: Utf16): seq<Byte> {
    ItemsLegal(s, 0);
    RawOf(Items(s, 0))
  }

  /** The UTF-8 bytes of `JSON.stringify(s)`. */
  ghost function WireEncoding(s: Utf16): seq<Byte> {
    ItemsLegal(s, 0);
    Encode([0x22] + QuotedOf(Items(s, 0)) + [0x22])
  }

  // ----- Their lengths -----

  function RawCost(x: Item): nat {
    if x.Lone? then 3
    else if x.value < 0x80 then 1 else if x.value < 0x800 then 2 else if x.value < 0x10000 then 3 else 4
  }

  function WireCost(x: Item): nat {
    if x.Lone? then 6
    else if ShortEscape(x.value) then 2 else if x.value < 0x20 then 6 else RawCost(x)
  }

  function RawFrom(s: Utf16, i: nat): nat
    requires i <= |s|
    decreases |s| - i
  {
    if i == |s| then 0 else RawCost(ItemAt(s, i)) + RawFrom(s, i + Width(s, i))
  }

  function WireFrom(s: Utf16, i: nat): nat
    requires i <= |s|
    decreases |s| - i
  {
    if i == |s| then 0 else WireCost(ItemAt(s, i)) + WireFrom(s, i + Width(s, i))
  }

  function RawBytes(s: Utf16): nat { RawFrom(s, 0) }

  function WireBytes(s: Utf16): nat { 2 + WireFrom(s, 0) }

  lemma {:induction false} EncodeConcat(a: seq<nat>, b: seq<nat>)
    requires forall i :: 0 <= i < |a| ==> a[i] < 0x110000
    requires forall i :: 0 <= i < |b| ==> b[i] < 0x110000
    ensures |Encode(a + b)| == |Encode(a)| + |Encode(b)|
  {
    if a == [] {
      assert a + b == b;
    } else {
      EncodeConcat(a[1..], b);
      assert (a + b)[1..] == a[1..] + b;
    }
  }

  lemma {:induction false} AsciiEncodes(points: seq<nat>)
    requires forall i :: 0 <= i < |points| ==> points[i] < 0x80
    ensures |Encode(points)| == |points|
  {
    if points != [] {
      AsciiEncodes(points[1..]);
    }
  }

  lemma QuotedItemLength(x: Item)
    requires x.Scalar? ==> x.value < 0x110000
    ensures |Encode(QuotedItem(x))| == WireCost(x)
  {
    if |QuotedItem(x)| == 1 {
      assert QuotedItem(x)[1..] == [];
    } else {
      AsciiEncodes(QuotedItem(x));
    }
  }

  lemma RawItemLength(x: Item)
    requires x.Scalar? ==> x.value < 0x110000
    ensures |RawItem(x)| == RawCost(x)
  {
  }

  lemma {:induction false} RawLengthFrom(s: Utf16, i: nat)
    requires i <= |s|
    requires Legal(Items(s, i))
    ensures |RawOf(Items(s, i))| == RawFrom(s, i)
    decreases |s| - i
  {
    if i < |s| {
      var next := i + Width(s, i);
      ItemsLegal(s, next);
      RawLengthFrom(s, next);
      RawItemLength(ItemAt(s, i));
      assert Items(s, i)[1..] == Items(s, next);
    }
  }

  lemma {:induction false} WireLengthFrom(s: Utf16, i: nat)
    requires i <= |s|
    requires Legal(Items(s, i))
    ensures |Encode(QuotedOf(Items(s, i)))| == WireFrom(s, i)
    decreases |s| - i
  {
    if i < |s| {
      var next := i + Width(s, i);
      ItemsLegal(s, next);
      WireLengthFrom(s, next);
      QuotedLengthSplits(ItemAt(s, i), Items(s, next));
      assert Items(s, i) == [ItemAt(s, i)] + Items(s, next);
    }
  }

  lemma QuotedLengthSplits(x: Item, rest: seq<Item>)
    requires Legal([x] + rest) && Legal(rest)
    ensures |Encode(QuotedOf([x] + rest))| == WireCost(x) + |Encode(QuotedOf(rest))|
  {
    assert ([x] + rest)[1..] == rest && ([x] + rest)[0] == x;
    QuotedItemLength(x);
    EncodeConcat(QuotedItem(x), QuotedOf(rest));
  }

  /** The counts are the lengths of the encodings, for every UTF-16 string, lone
      surrogates included. */
  lemma CountsAreLengths(s: Utf16)
    ensures |RawEncoding(s)| == RawBytes(s)
    ensures |WireEncoding(s)| == WireBytes(s)
  {
    ItemsLegal(s, 0);
    RawLengthFrom(s, 0);
    WireLengthFrom(s, 0);
    var inner := QuotedOf(Items(s, 0));
    EncodeConcat([0x22] + inner, [0x22]);
    EncodeConcat([0x22], inner);
    AsciiEncodes([0x22]);
  }

  // ----- The counting loop -----

  datatype Metrics = Metrics(raw: nat, wire: nat) | RawLimit | WireLimit

  /** One pass over the code units with both limits checked after every element. */
  method StringByteMetrics(value: Utf16, maxRaw: nat, maxWire: int) returns (r: Metrics)
    ensures r.Metrics? <==> |RawEncoding(value)| <= maxRaw && |WireEncoding(value)| <= maxWire
    ensures r.Metrics? ==> r.raw == |RawEncoding(value)| && r.wire == |WireEncoding(value)|
    ensures r.RawLimit? ==> |RawEncoding(value)| > maxRaw
    ensures r.WireLimit? ==> |WireEncoding(value)| > maxWire
  {
    CountsAreLengths(value);
    var raw: nat, wire: nat := 0, 2;
    if wire > maxWire { return WireLimit; }
    var index := 0;
    while index < |value|
      invariant index <= |value|
      invariant raw + RawFrom(value, index) == RawBytes(value)
      invariant wire + WireFrom(value, index) == WireBytes(value)
      invariant raw <= maxRaw && wire <= maxWire
    {
      var code := value[index];
      if code == 0x22 || code == 0x5c || code == 0x08 || code == 0x09 || code == 0x0a || code == 0x0c || code == 0x0d {
        raw, wire, index := raw + 1, wire + 2, index + 1;
      } else if code < 0x20 {
        raw, wire, index := raw + 1, wire + 6, index + 1;
      } else if code < 0x80 {
        raw, wire, index := raw + 1, wire + 1, index + 1;
      } else if code < 0x800 {
        raw, wire, index := raw + 2, wire + 2, index + 1;
      } else if 0xd800 <= code <= 0xdbff {
        if index + 1 < |value| && 0xdc00 <= value[index + 1] <= 0xdfff {
          raw, wire, index := raw + 4, wire + 4, index + 2;
        } else {
          raw, wire, index := raw + 3, wire + 6, index + 1;
        }
      } else if 0xdc00 <= code <= 0xdfff {
        raw, wire, index := raw + 3, wire + 6, index + 1;
      } else {
        raw, wire, index := raw + 3, wire + 3, index + 1;
      }
      if raw > maxRaw { return RawLimit; }
      if wire > maxWire { return WireLimit; }
    }
    return Metrics(raw, wire);
  }
}
