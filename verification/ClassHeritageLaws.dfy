/** Parsed class facts always pass their own storage validation. */
module ClassHeritageLaws {
  import opened Options
  import opened ClassFacts
  import opened LineIndex
  import opened Delimiters
  import opened ClassHeritage

  // ----- Offsets and positions -----

  predicate FitsAt(text: Source, offset: nat) {
    forall k :: 0 <= k <= |text| && Offset(text, k) == offset ==> Fits(text, k)
  }

  /** Line and column of every token's ends fit in 32 bits. */
  predicate TokensFit(text: Source, tokens: seq<Token>) {
    forall i :: 0 <= i < |tokens| ==> FitsAt(text, tokens[i].start) && FitsAt(text, tokens[i].end)
  }

  lemma OffsetsOrderPositions(text: Source, a: nat, b: nat)
    requires FitsAt(text, a) && FitsAt(text, b) && Boundary(text, a) && Boundary(text, b) && a <= b
    ensures AtMost(PositionAt(text, a), PositionAt(text, b))
    ensures a < b ==> Before(PositionAt(text, a), PositionAt(text, b))
  {
    var j :| 0 <= j <= |text| && Offset(text, j) == a;
    var k :| 0 <= k <= |text| && Offset(text, k) == b;
    BoundaryFound(text, j, |text|);
    BoundaryFound(text, k, |text|);
    if j < k {
      PositionsIncrease(text, j, k);
    } else if k < j {
      OffsetGrows(text, k, j);
    }
  }

  /** A nonempty token within a span of tokens has a nonempty range within its range. */
  lemma TokenRangeInside(text: Source, tokens: seq<Token>, i: nat, from: nat, to: nat)
    requires WellScanned(text, tokens) && TokensFit(text, tokens)
    requires from <= i <= to < |tokens| && tokens[i].kind != StringLiteral
    ensures ContainedNonempty(RangeOf(text, tokens[i].start, tokens[i].end),
                              RangeOf(text, tokens[from].start, tokens[to].end))
  {
    OffsetsOrderPositions(text, tokens[from].start, tokens[i].start);
    OffsetsOrderPositions(text, tokens[i].start, tokens[i].end);
    OffsetsOrderPositions(text, tokens[i].end, tokens[to].end);
  }

  // ----- One class -----

  ghost predicate Read(text: Source, tokens: seq<Token>, s: Structure, hs: Headers) {
    && WellScanned(text, tokens) && StructureOf(tokens) == Some(s)
    && WellNested(tokens, s.closes) && |s.depths| == |tokens|
    && hs == HeadersOf(text, tokens, s.depths) && Usable(tokens, s.closes, hs)
  }

  /** Everything the laws need about a parse. */
  ghost predicate Parsed(text: Source, tokens: seq<Token>, s: Structure, hs: Headers) {
    Read(text, tokens, s, hs) && TokensFit(text, tokens)
  }

  lemma ParsedClassIsValid(text: Source, tokens: seq<Token>, s: Structure, hs: Headers, i: nat)
    requires Parsed(text, tokens, s, hs) && i < |tokens| && hs[i].Some?
    ensures ValidClass(ClassOf(text, tokens, s.closes, hs, i))
  {
    var h := hs[i].value;
    assert HeaderOf(text, tokens, s.depths, i) == Some(h);
    BodyIsShut(text, tokens, s.closes, i, h);
    var start, close := DeclarationStart(tokens, i), s.closes[h.body].value;
    TokenRangeInside(text, tokens, i + 1, start, close);
    if h.base.Some? {
      TokenRangeInside(text, tokens, i + 3, start, close);
      OffsetsOrderPositions(text, tokens[i + 1].end, tokens[i + 3].start);
    }
  }

  // ----- Two classes -----

  /** No class begins inside the header of another. */
  lemma HeaderHoldsNoClass(text: Source, tokens: seq<Token>, i: nat, j: nat)
    requires i < j < |tokens| && HeaderAt(text, tokens, i).Some? && j <= BodyOf(tokens, i)
    ensures !ClassToken(tokens[j]) || HeaderAt(text, tokens, j).None?
  {
  }

  /** No class begins inside the body of another: it would not be at depth zero. */
  lemma BodyHoldsNoClass(tokens: seq<Token>, s: Structure, body: nat, j: nat)
    requires WellNested(tokens, s.closes) && StructureOf(tokens) == Some(s)
    requires body < j < |tokens| && s.closes[body].Some? && j <= s.closes[body].value
    ensures |s.depths| == |tokens| && s.depths[j] > 0
  {
    DelimitersMatchExactly(tokens, s.closes);
    assert body in Enclosing(s.closes, j);
  }

  /** A later class begins after an earlier one has ended. */
  lemma ClassesAreApart(text: Source, tokens: seq<Token>, s: Structure, hs: Headers, i: nat, j: nat)
    requires Parsed(text, tokens, s, hs) && i < j < |tokens| && hs[i].Some? && hs[j].Some?
    ensures s.closes[hs[i].value.body].value < DeclarationStart(tokens, j)
  {
    var body := hs[i].value.body;
    assert HeaderOf(text, tokens, s.depths, i) == hs[i] && HeaderOf(text, tokens, s.depths, j) == hs[j];
    BodyIsShut(text, tokens, s.closes, i, hs[i].value);
    var close := s.closes[body].value;
    assert MatchesAt(tokens, s.closes, body);
    if j <= body { HeaderHoldsNoClass(text, tokens, i, j); }
    if body < j <= close { BodyHoldsNoClass(tokens, s, body, j); }
    var start := DeclarationStart(tokens, j);
    assert start <= close ==> close < j && Modifier(tokens[close]);
  }

  predicate Apart(a: Class, b: Class) {
    AtMost(a.declarationRange.end, b.declarationRange.start)
  }

  lemma DeclarationsAreApart(text: Source, tokens: seq<Token>, s: Structure, hs: Headers, i: nat, j: nat)
    requires Parsed(text, tokens, s, hs) && i < j < |tokens| && hs[i].Some? && hs[j].Some?
    ensures Apart(ClassOf(text, tokens, s.closes, hs, i), ClassOf(text, tokens, s.closes, hs, j))
  {
    ClassesAreApart(text, tokens, s, hs, i, j);
    var close, start := s.closes[hs[i].value.body].value, DeclarationStart(tokens, j);
    OffsetsOrderPositions(text, tokens[close].end, tokens[start].start);
  }

  // ----- The whole document -----

  lemma {:induction false} PickedFrom(t: Table, n: nat, k: nat) returns (i: nat)
    requires n <= |t| && k < |Pick(t, n)|
    ensures i < n && t[i] == Some(Pick(t, n)[k])
  {
    if k < |Pick(t, n - 1)| { i := PickedFrom(t, n - 1, k); } else { i := n - 1; }
  }

  lemma {:induction false} PickedInOrder(t: Table, n: nat, k: nat, l: nat) returns (i: nat, j: nat)
    requires n <= |t| && k < l < |Pick(t, n)|
    ensures i < j < n && t[i] == Some(Pick(t, n)[k]) && t[j] == Some(Pick(t, n)[l])
  {
    if l < |Pick(t, n - 1)| {
      i, j := PickedInOrder(t, n - 1, k, l);
    } else {
      i := PickedFrom(t, n - 1, k);
      j := n - 1;
    }
  }

  predicate Ordered(classes: seq<Class>) {
    forall k, l :: 0 <= k < l < |classes| ==> Apart(classes[k], classes[l])
  }

  /** The parsed heritage passes validation, and the declarations stand apart from one
      another in source order, whenever the positions of the tokens fit. */
  lemma ParsedHeritageIsValid(uri: string, text: Source, tokens: seq<Token>, uncertain: bool)
    requires WellScanned(text, tokens) && TokensFit(text, tokens)
    ensures HeritageOf(uri, text, tokens, uncertain).Some? ==>
      && ValidHeritage(HeritageOf(uri, text, tokens, uncertain).value, uri)
      && Ordered(HeritageOf(uri, text, tokens, uncertain).value.classes)
  {
    if StructureOf(tokens).Some? {
      var s := StructureOf(tokens).value;
      StructureIsUsable(text, tokens);
      var hs := HeadersOf(text, tokens, s.depths);
      var t := TableOf(text, tokens, s.closes, hs);
      PickedAreValid(text, tokens, s, hs, t);
      PickedAreOrdered(text, tokens, s, hs, t);
    }
  }

  lemma PickedAreValid(text: Source, tokens: seq<Token>, s: Structure, hs: Headers, t: Table)
    requires Parsed(text, tokens, s, hs) && t == TableOf(text, tokens, s.closes, hs)
    ensures forall k :: 0 <= k < |Pick(t, |t|)| ==> ValidClass(Pick(t, |t|)[k])
  {
    forall k | 0 <= k < |Pick(t, |t|)| ensures ValidClass(Pick(t, |t|)[k]) {
      var i := PickedFrom(t, |t|, k);
      ParsedClassIsValid(text, tokens, s, hs, i);
    }
  }

  lemma PickedAreOrdered(text: Source, tokens: seq<Token>, s: Structure, hs: Headers, t: Table)
    requires Parsed(text, tokens, s, hs) && t == TableOf(text, tokens, s.closes, hs)
    ensures Ordered(Pick(t, |t|))
  {
    var classes := Pick(t, |t|);
    forall k, l | 0 <= k < l < |classes| ensures Apart(classes[k], classes[l]) {
      var i, j := PickedInOrder(t, |t|, k, l);
      DeclarationsAreApart(text, tokens, s, hs, i, j);
    }
  }

  // ----- Provenance -----

  function ExportPositions(text: Source, tokens: seq<Token>): set<Position> {
    set t | t in tokens && t.kind == Identifier && t.text == "export" :: PositionAt(text, t.start)
  }

  /** The name ranges of the first `n` classes declared at one of the positions. */
  function ExportedAt(classes: seq<Class>, n: nat, positions: set<Position>): seq<Range>
    requires n <= |classes|
  {
    if n == 0 then []
    else
      ExportedAt(classes, n - 1, positions)
      + if classes[n - 1].declarationRange.start in positions then [classes[n - 1].nameRange] else []
  }

  /** `bindingsSupported` is the verdict of the module syntax scan. */
  function SourceProvenance(text: Source, tokens: seq<Token>, h: Option<Heritage>, bindingsSupported: bool): Provenance
  {
    if h.Some? && h.value.complete && bindingsSupported
    then Provenance(true, ExportedAt(h.value.classes, |h.value.classes|, ExportPositions(text, tokens)))
    else Provenance(false, [])
  }

  predicate DistinctNames(classes: seq<Class>) {
    forall k, l :: 0 <= k < l < |classes| ==> classes[k].nameRange != classes[l].nameRange
  }

  lemma OrderedClassesHaveDistinctNames(classes: seq<Class>)
    requires Ordered(classes) && forall k :: 0 <= k < |classes| ==> ValidClass(classes[k])
    ensures DistinctNames(classes)
  {
    forall k, l | 0 <= k < l < |classes| ensures classes[k].nameRange != classes[l].nameRange {
      assert ValidClass(classes[k]) && ValidClass(classes[l]) && Apart(classes[k], classes[l]);
    }
  }

  lemma {:induction false} ExportedAtFrom(classes: seq<Class>, n: nat, positions: set<Position>, k: nat)
    returns (i: nat)
    requires n <= |classes| && k < |ExportedAt(classes, n, positions)|
    ensures i < n && classes[i].declarationRange.start in positions
    ensures classes[i].nameRange == ExportedAt(classes, n, positions)[k]
  {
    if k < |ExportedAt(classes, n - 1, positions)| {
      i := ExportedAtFrom(classes, n - 1, positions, k);
    } else {
      i := n - 1;
    }
  }

  lemma {:induction false} ExportedAtHolds(classes: seq<Class>, n: nat, positions: set<Position>, i: nat)
    requires i < n <= |classes| && classes[i].declarationRange.start in positions
    ensures classes[i].nameRange in ExportedAt(classes, n, positions)
  {
    if i < n - 1 { ExportedAtHolds(classes, n - 1, positions, i); }
  }

  /** With distinct names, a class is exported exactly when its name range is listed. */
  lemma ListedIsExported(classes: seq<Class>, positions: set<Position>, i: nat)
    requires DistinctNames(classes) && i < |classes|
    ensures classes[i].nameRange in ExportedAt(classes, |classes|, positions)
      <==> classes[i].declarationRange.start in positions
  {
    var all := ExportedAt(classes, |classes|, positions);
    if classes[i].nameRange in all {
      var k :| 0 <= k < |all| && all[k] == classes[i].nameRange;
      var j := ExportedAtFrom(classes, |classes|, positions, k);
      assert j == i;
    }
    if classes[i].declarationRange.start in positions { ExportedAtHolds(classes, |classes|, positions, i); }
  }

  lemma {:induction false} CanonicalIsExported(classes: seq<Class>, n: nat, positions: set<Position>)
    requires DistinctNames(classes) && n <= |classes|
    ensures Canonical(classes, n, RangeSet(ExportedAt(classes, |classes|, positions)))
      == ExportedAt(classes, n, positions)
  {
    if n > 0 {
      CanonicalIsExported(classes, n - 1, positions);
      ListedIsExported(classes, positions, n - 1);
    }
  }

  lemma {:induction false} ExportedAreDistinct(classes: seq<Class>, n: nat, positions: set<Position>)
    requires DistinctNames(classes) && n <= |classes|
    ensures |RangeSet(ExportedAt(classes, n, positions))| == |ExportedAt(classes, n, positions)|
  {
    if n > 0 {
      ExportedAreDistinct(classes, n - 1, positions);
      var fewer, name := ExportedAt(classes, n - 1, positions), classes[n - 1].nameRange;
      if name in fewer {
        var k :| 0 <= k < |fewer| && fewer[k] == name;
        var j := ExportedAtFrom(classes, n - 1, positions, k);
      }
      assert RangeSet(fewer + [name]) == RangeSet(fewer) + {name};
      assert fewer + [] == fewer;
    }
  }

  /** Whatever the module syntax scan says, the provenance of the parsed heritage passes
      validation, whenever the positions of the tokens fit. */
  lemma ParsedProvenanceIsValid(uri: string, text: Source, tokens: seq<Token>, uncertain: bool, bindingsSupported: bool)
    requires WellScanned(text, tokens) && TokensFit(text, tokens)
    ensures var h := HeritageOf(uri, text, tokens, uncertain);
      ValidProvenance(SourceProvenance(text, tokens, h, bindingsSupported), h)
  {
    var h := HeritageOf(uri, text, tokens, uncertain);
    if h.Some? && h.value.complete && bindingsSupported {
      var classes, positions := h.value.classes, ExportPositions(text, tokens);
      ParsedHeritageIsValid(uri, text, tokens, uncertain);
      OrderedClassesHaveDistinctNames(classes);
      CanonicalIsExported(classes, |classes|, positions);
      ExportedAreDistinct(classes, |classes|, positions);
    }
  }

  // ----- Exactly when the heritage is valid -----

  function Index(text: Source, offset: nat): (k: nat)
    ensures k <= |text|
  {
    BoundaryAt(text, offset, |text|)
  }

  /** No column that is a multiple of 2^32 lies between the two on one line. */
  predicate Together(text: Source, a: nat, b: nat) {
    var j, k := Index(text, a), Index(text, b);
    Line(text, j) == Line(text, k) ==> Column(text, j) / U32 == Column(text, k) / U32
  }

  lemma {:induction false} ColumnGap(text: Source, j: nat, k: nat)
    requires j <= k <= |text| && Line(text, j) == Line(text, k)
    ensures k - j <= Column(text, k) - Column(text, j) <= Offset(text, k) - Offset(text, j)
  {
    if j < k {
      LineGrows(text, j, k - 1);
      ColumnGap(text, j, k - 1);
      UnitsFitBytes(text[k - 1]);
    }
  }

  lemma UnitsFitBytes(r: Rune)
    ensures Len16(r) <= Len8(r)
  {
  }

  lemma CutOrder(c: nat, d: nat)
    requires c <= d < c + U32
    ensures c % U32 <= d % U32 <==> c / U32 == d / U32
    ensures c < d ==> (c % U32 < d % U32 <==> c / U32 == d / U32)
  {
    var x, y := c / U32, d / U32;
    assert c == x * U32 + c % U32 && d == y * U32 + d % U32;
    assert x <= y <= x + 1;
  }

  lemma CutPositions(l: nat, c: nat, m: nat, d: nat)
    requires l <= m < U32 && (l == m ==> c <= d < c + U32)
    ensures AtMost(Wrapped(l, c), Wrapped(m, d)) <==> (l == m ==> c / U32 == d / U32)
    ensures l < m || c < d ==> (Before(Wrapped(l, c), Wrapped(m, d)) <==> (l == m ==> c / U32 == d / U32))
  {
    assert l % U32 == l && m % U32 == m;
    if l == m { CutOrder(c, d); }
  }

  lemma BoundariesExactly(text: Source, j: nat, k: nat)
    requires j <= k <= |text| && Offset(text, k) < Offset(text, j) + U32 && Line(text, k) < U32
    ensures var kept := Line(text, j) == Line(text, k) ==> Column(text, j) / U32 == Column(text, k) / U32;
      && (AtMost(At(text, j), At(text, k)) <==> kept)
      && (j < k ==> (Before(At(text, j), At(text, k)) <==> kept))
    ensures Line(text, j) <= Line(text, k)
  {
    LineGrows(text, j, k);
    if Line(text, j) == Line(text, k) { ColumnGap(text, j, k); }
    CutPositions(Line(text, j), Column(text, j), Line(text, k), Column(text, k));
  }

  /** Two positions less than 4 GiB apart keep their order exactly when they are together. */
  lemma PairExactly(text: Source, a: nat, b: nat)
    requires Boundary(text, a) && Boundary(text, b) && a <= b < a + U32 && Line(text, Index(text, b)) < U32
    ensures AtMost(PositionAt(text, a), PositionAt(text, b)) <==> Together(text, a, b)
    ensures a < b ==> (Before(PositionAt(text, a), PositionAt(text, b)) <==> Together(text, a, b))
    ensures Line(text, Index(text, a)) <= Line(text, Index(text, b))
  {
    var j :| 0 <= j <= |text| && Offset(text, j) == a;
    var k :| 0 <= k <= |text| && Offset(text, k) == b;
    BoundaryFound(text, j, |text|);
    BoundaryFound(text, k, |text|);
    if k < j { OffsetGrows(text, k, j); }
    BoundariesExactly(text, j, k);
  }

  /** The declaration is shorter than 4 GiB and its lines are numbered in 32 bits. */
  predicate Measured(text: Source, from: nat, to: nat) {
    to < from + U32 && Line(text, Index(text, to)) < U32
  }

  predicate Successive(text: Source, a: nat, b: nat) { AtMost(PositionAt(text, a), PositionAt(text, b)) }

  predicate Nonempty(text: Source, a: nat, b: nat) { Before(PositionAt(text, a), PositionAt(text, b)) }

  lemma TokenPair(text: Source, from: nat, to: nat, a: nat, b: nat)
    requires Measured(text, from, to) && from <= a <= b <= to
    requires Boundary(text, a) && Boundary(text, b) && Boundary(text, to)
    ensures Successive(text, a, b) <==> Together(text, a, b)
    ensures a < b ==> (Nonempty(text, a, b) <==> Together(text, a, b))
  {
    PairExactly(text, b, to);
    PairExactly(text, a, b);
  }

  function StartOf(tokens: seq<Token>, i: nat): nat
    requires i < |tokens|
  {
    tokens[DeclarationStart(tokens, i)].start
  }

  function EndOf(tokens: seq<Token>, closes: Matching, hs: Headers, i: nat): nat
    requires Usable(tokens, closes, hs) && i < |tokens| && hs[i].Some?
  {
    tokens[closes[hs[i].value.body].value].end
  }

  /** Successive positions of the declaration are together. */
  predicate Unwrapped(text: Source, tokens: seq<Token>, closes: Matching, hs: Headers, i: nat)
    requires Usable(tokens, closes, hs) && i < |tokens| && hs[i].Some?
  {
    var name, last := tokens[hs[i].value.name], EndOf(tokens, closes, hs, i);
    && Together(text, StartOf(tokens, i), name.start) && Together(text, name.start, name.end)
    && if hs[i].value.base.None? then Together(text, name.end, last)
       else
         var base := tokens[hs[i].value.base.value];
         && Together(text, name.end, base.start) && Together(text, base.start, base.end)
         && Together(text, base.end, last)
  }

  /** The tokens of a declaration in source order. */
  lemma DeclarationInOrder(text: Source, tokens: seq<Token>, s: Structure, hs: Headers, i: nat)
    requires Read(text, tokens, s, hs) && i < |tokens| && hs[i].Some?
    ensures var h, last := hs[i].value, EndOf(tokens, s.closes, hs, i);
      var name := tokens[h.name];
      && name.text != "" && StartOf(tokens, i) <= name.start < name.end <= last
      && (h.base.Some? ==>
            var base := tokens[h.base.value];
            base.text != "" && name.end <= base.start < base.end <= last)
  {
    var h := hs[i].value;
    assert HeaderOf(text, tokens, s.depths, i) == Some(h);
    BodyIsShut(text, tokens, s.closes, i, h);
    var start := DeclarationStart(tokens, i);
    assert start <= i < h.name < h.body < s.closes[h.body].value;
    assert tokens[start].end <= tokens[h.name].start || start == h.name;
  }

  lemma ClassIsValidExactly(text: Source, tokens: seq<Token>, s: Structure, hs: Headers, i: nat)
    requires Read(text, tokens, s, hs) && i < |tokens| && hs[i].Some?
    requires Measured(text, StartOf(tokens, i), EndOf(tokens, s.closes, hs, i))
    ensures ValidClass(ClassOf(text, tokens, s.closes, hs, i)) <==> Unwrapped(text, tokens, s.closes, hs, i)
  {
    DeclarationInOrder(text, tokens, s, hs, i);
    var from, to, name := StartOf(tokens, i), EndOf(tokens, s.closes, hs, i), tokens[hs[i].value.name];
    TokenPair(text, from, to, from, name.start);
    TokenPair(text, from, to, name.start, name.end);
    if hs[i].value.base.None? {
      TokenPair(text, from, to, name.end, to);
    } else {
      var base := tokens[hs[i].value.base.value];
      TokenPair(text, from, to, name.end, base.start);
      TokenPair(text, from, to, base.start, base.end);
      TokenPair(text, from, to, base.end, to);
    }
    ClassIsValidInOrder(text, tokens, s, hs, i, ClassOf(text, tokens, s.closes, hs, i));
  }

  /** Validation asks for the order of successive positions; the rest follows. */
  lemma ClassIsValidInOrder(text: Source, tokens: seq<Token>, s: Structure, hs: Headers, i: nat, c: Class)
    requires Read(text, tokens, s, hs) && i < |tokens| && hs[i].Some? && c == ClassOf(text, tokens, s.closes, hs, i)
    requires tokens[hs[i].value.name].text != ""
    requires hs[i].value.base.Some? ==> tokens[hs[i].value.base.value].text != ""
    ensures var from, to, name := StartOf(tokens, i), EndOf(tokens, s.closes, hs, i), tokens[hs[i].value.name];
      ValidClass(c) <==>
        && Successive(text, from, name.start) && Nonempty(text, name.start, name.end)
        && if hs[i].value.base.None? then Successive(text, name.end, to)
           else
             var base := tokens[hs[i].value.base.value];
             && Successive(text, name.end, base.start) && Nonempty(text, base.start, base.end)
             && Successive(text, base.end, to)
  {
  }

  /** Where declarations are shorter than 4 GiB, the parsed heritage passes validation
      exactly when no declaration is wrapped. */
  lemma ParsedHeritageIsValidExactly(uri: string, text: Source, tokens: seq<Token>, uncertain: bool, s: Structure,
                                     hs: Headers)
    requires Read(text, tokens, s, hs)
    requires forall i: nat :: i < |tokens| && hs[i].Some? ==>
      Measured(text, StartOf(tokens, i), EndOf(tokens, s.closes, hs, i))
    ensures HeritageOf(uri, text, tokens, uncertain).Some?
    ensures ValidHeritage(HeritageOf(uri, text, tokens, uncertain).value, uri) <==>
      forall i: nat :: i < |tokens| && hs[i].Some? ==> Unwrapped(text, tokens, s.closes, hs, i)
  {
    StructureIsUsable(text, tokens);
    var t := TableOf(text, tokens, s.closes, hs);
    forall i: nat | i < |tokens| && hs[i].Some?
      ensures ValidClass(t[i].value) <==> Unwrapped(text, tokens, s.closes, hs, i)
      ensures t[i].value in Pick(t, |t|)
    {
      ClassIsValidExactly(text, tokens, s, hs, i);
      PickedHolds(t, |t|, i);
    }
    forall k | 0 <= k < |Pick(t, |t|)|
      ensures exists i: nat :: i < |tokens| && hs[i].Some? && t[i] == Some(Pick(t, |t|)[k])
    {
      var i := PickedFrom(t, |t|, k);
    }
  }

  lemma {:induction false} PickedHolds(t: Table, n: nat, i: nat)
    requires i < n <= |t| && t[i].Some?
    ensures t[i].value in Pick(t, n)
  {
    if i < n - 1 { PickedHolds(t, n - 1, i); }
  }

  // ----- A name that does not fit -----

  /** A class declaration after so many blanks that its name ends at column 2^32. */
  function Padded(): (text: Source)
    ensures |text| == U32 + 2
  {
    seq(U32 - 7, i => 0x20) + [0x63, 0x6c, 0x61, 0x73, 0x73, 0x20, 0x41, 0x7b, 0x7d]
  }

  function PaddedTokens(): seq<Token> {
    [Token("class", Identifier, U32 - 7, U32 - 2), Token("A", Identifier, U32 - 1, U32),
     Token("{", Punctuation, U32, U32 + 1), Token("}", Punctuation, U32 + 1, U32 + 2)]
  }

  lemma PaddedOffsets(k: nat)
    requires k <= U32 + 2
    ensures Offset(Padded(), k) == k && Column(Padded(), k) == k && Line(Padded(), k) == 0
    ensures BoundaryAt(Padded(), k, U32 + 2) == k
  {
    PlainColumn(Padded(), k);
    BoundaryFound(Padded(), k, U32 + 2);
  }

  lemma PaddedBoundary(k: nat)
    requires k <= U32 + 2
    ensures Boundary(Padded(), k)
  {
    PaddedOffsets(k);
  }

  lemma PaddedIsScanned(tokens: seq<Token>)
    requires tokens == PaddedTokens()
    ensures WellScanned(Padded(), tokens)
  {
    forall i | 0 <= i < |tokens| ensures Boundary(Padded(), tokens[i].start) && Boundary(Padded(), tokens[i].end) {
      PaddedBoundary(tokens[i].start);
      PaddedBoundary(tokens[i].end);
    }
    PaddedInOrder(tokens);
  }

  lemma PaddedInOrder(tokens: seq<Token>)
    requires tokens == PaddedTokens()
    ensures forall i, j :: 0 <= i < j < |tokens| ==> tokens[i].end <= tokens[j].start
  {
  }

  lemma ScanOne(tokens: seq<Token>, n: nat, s: Scan, t: Scan)
    requires n < |tokens| && ScanTo(tokens, n) == Some(s) && Step(tokens, s, n) == Some(t)
    ensures ScanTo(tokens, n + 1) == Some(t)
  {
  }

  lemma PaddedStructure(tokens: seq<Token>)
    requires tokens == PaddedTokens()
    ensures StructureOf(tokens) == Some(Structure([0, 0, 0, 1], [None, None, Some(3), None]))
  {
    var none: Matching := [None, None, None, None];
    assert Nothing(tokens).closes == none;
    assert [] + [0] == [0] && [0] + [0] == [0, 0] && [0, 0] + [0] == [0, 0, 0] && [0, 0, 0] + [1] == [0, 0, 0, 1];
    assert [2][..0] == [] && [] + [2] == [2];
    ScanOne(tokens, 0, Scan([], [], none), Scan([], [0], none));
    ScanOne(tokens, 1, Scan([], [0], none), Scan([], [0, 0], none));
    ScanOne(tokens, 2, Scan([], [0, 0], none), Scan([2], [0, 0, 0], none));
    ScanOne(tokens, 3, Scan([2], [0, 0, 0], none), Scan([], [0, 0, 0, 1], none[2 := Some(3)]));
    assert none[2 := Some(3)] == [None, None, Some(3), None];
  }

  lemma PaddedHeader(text: Source, tokens: seq<Token>, depths: seq<nat>)
    requires text == Padded() && tokens == PaddedTokens() && depths == [0, 0, 0, 1]
    ensures HeaderOf(text, tokens, depths, 0) == Some(Header(1, None, 2, None))
  {
    PaddedOffsets(U32 - 2);
    PaddedOffsets(U32 - 1);
    PaddedOffsets(U32);
    assert text[U32 - 2] == 0x20;
    assert Trivia(text, U32 - 1, U32 - 1) && Trivia(text, U32 - 2, U32 - 1);
    assert GapIsTrivia(text, tokens, 0) && GapIsTrivia(text, tokens, 1);
    assert GapsAreTrivia(text, tokens, 2, 2) && GapsAreTrivia(text, tokens, 1, 2);
    assert HeaderAt(text, tokens, 0) == Some(Header(1, None, 2, None));
    assert DeclarationStart(tokens, 0) == 0;
  }

  lemma PaddedName()
    ensures !Before(PositionAt(Padded(), U32 - 1), PositionAt(Padded(), U32))
  {
    PaddedOffsets(U32 - 1);
    PaddedOffsets(U32);
  }

  /** The parsed heritage of that text does not pass validation: the name's range ends
      before it starts. */
  lemma WrappedNameIsInvalid(uri: string)
    ensures WellScanned(Padded(), PaddedTokens())
    ensures var h := HeritageOf(uri, Padded(), PaddedTokens(), false); h.Some? && !ValidHeritage(h.value, uri)
  {
    var text, tokens := Padded(), PaddedTokens();
    PaddedIsScanned(tokens);
    PaddedStructure(tokens);
    StructureIsUsable(text, tokens);
    var s := StructureOf(tokens).value;
    var hs := HeadersOf(text, tokens, s.depths);
    var t := TableOf(text, tokens, s.closes, hs);
    PaddedHeader(text, tokens, s.depths);
    PickedHolds(t, |t|, 0);
    PaddedName();
    assert !ValidClass(t[0].value);
  }
}
