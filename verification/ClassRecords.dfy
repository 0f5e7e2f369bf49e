/** What is recorded of classes. */
module ClassRecords {
  // The supported form of a class declaration, said over the token stream and a well-nested
  // matching of its delimiters, and what a record of it must hold. The parse records exactly
  // the declarations of that form, in order.

  import opened Options
  import opened ClassFacts
  import opened LineIndex
  import opened Delimiters
  import opened ClassHeritage
  import opened ClassHeritageLaws

  // ----- Blank text -----

  /** From `i` to `k`: one white character, a line comment up to its newline, or a block
      comment up to the first end of a comment. */
  predicate Piece(text: Source, i: nat, k: nat, end: nat) {
    && i < k <= end <= |text|
    && (|| (White(text[i]) && k == i + 1)
        || (Comment(text, i, k, end) && text[i + 1] == SLASH && Rest(text, i, k, end))
        || (Comment(text, i, k, end) && text[i + 1] == STAR && Shut(text, i, k)))
  }

  predicate Comment(text: Source, i: nat, k: nat, end: nat) {
    i + 1 < k <= end <= |text| && !White(text[i]) && text[i] == SLASH
  }

  /** No newline within, and then a newline or the end. */
  predicate Rest(text: Source, i: nat, k: nat, end: nat)
    requires i + 1 < k <= end <= |text|
  {
    (forall j :: i + 2 <= j < k ==> text[j] as nat != NEWLINE) && (k == end || text[k] as nat == NEWLINE)
  }

  /** The last two characters end a comment and no earlier two do. */
  predicate Shut(text: Source, i: nat, k: nat)
    requires i + 1 < k <= |text|
  {
    && text[k - 2] == STAR && text[k - 1] == SLASH && i + 3 <= k
    && forall j :: i <= j < k - 2 ==> !(text[j] == STAR && text[j + 1] == SLASH)
  }

  /** A sequence of such pieces. */
  ghost predicate Blank(text: Source, i: nat, end: nat) {
    exists cuts: seq<nat> :: Cut(text, i, end, cuts)
  }

  ghost predicate Cut(text: Source, i: nat, end: nat, cuts: seq<nat>) {
    && cuts != [] && cuts[0] == i && cuts[|cuts| - 1] == end
    && forall n: nat :: n + 1 < |cuts| ==> PieceAt(text, end, cuts, n)
  }

  predicate PieceAt(text: Source, end: nat, cuts: seq<nat>, n: nat)
    requires n + 1 < |cuts|
  {
    Piece(text, cuts[n], cuts[n + 1], end)
  }

  lemma {:induction false} CommentEndIsFirst(text: Source, i: nat, end: nat)
    requires i <= end <= |text|
    ensures CommentEnd(text, i, end).Some? ==>
      var k := CommentEnd(text, i, end).value;
      && text[k - 2] == STAR && text[k - 1] == SLASH
      && forall j :: i <= j < k - 2 ==> !(text[j] == STAR && text[j + 1] == SLASH)
    ensures CommentEnd(text, i, end).None? ==>
      forall j :: i <= j && j + 1 < end ==> !(text[j] == STAR && text[j + 1] == SLASH)
    decreases end - i
  {
    if i < end && !Two(text, i, end, STAR, SLASH) { CommentEndIsFirst(text, i + 1, end); }
  }

  /** The piece that begins at `i`, if one does. */
  function NextPiece(text: Source, i: nat, end: nat): (k: Option<nat>)
    requires i < end <= |text|
  {
    if White(text[i]) then Some(i + 1)
    else if Two(text, i, end, SLASH, SLASH) then Some(LineEnd(text, i + 2, end))
    else if Two(text, i, end, SLASH, STAR) then CommentEnd(text, i, end)
    else None
  }

  lemma {:induction false} LineEndStops(text: Source, i: nat, end: nat)
    requires i <= end <= |text|
    ensures var k := LineEnd(text, i, end); k == end || text[k] as nat == NEWLINE
    decreases end - i
  {
    if i < end && text[i] as nat != NEWLINE { LineEndStops(text, i + 1, end); }
  }

  lemma PieceExactly(text: Source, i: nat, k: nat, end: nat)
    requires i < end <= |text|
    ensures Piece(text, i, k, end) <==> NextPiece(text, i, end) == Some(k)
  {
    if !White(text[i]) && Two(text, i, end, SLASH, SLASH) {
      LineEndStops(text, i + 2, end);
    } else if !White(text[i]) && Two(text, i, end, SLASH, STAR) {
      CommentEndIsFirst(text, i, end);
      if Piece(text, i, k, end) { CommentEndMatches(text, i, k, end); }
    }
  }

  lemma CommentEndMatches(text: Source, i: nat, k: nat, end: nat)
    requires i + 1 < k <= end <= |text| && Shut(text, i, k)
    ensures CommentEnd(text, i, end) == Some(k)
  {
    CommentEndIsFirst(text, i, end);
  }

  lemma {:induction false} TriviaIsBlank(text: Source, i: nat, end: nat) returns (cuts: seq<nat>)
    requires i <= end <= |text| && Trivia(text, i, end)
    ensures Cut(text, i, end, cuts)
    decreases end - i
  {
    if i == end {
      cuts := [i];
    } else {
      var k := NextPiece(text, i, end).value;
      PieceExactly(text, i, k, end);
      var rest := TriviaIsBlank(text, k, end);
      cuts := [i] + rest;
      forall n: nat | n + 1 < |cuts| ensures PieceAt(text, end, cuts, n) {
        if n > 0 { assert PieceAt(text, end, rest, n - 1); }
      }
    }
  }

  lemma {:induction false} BlankIsTrivia(text: Source, i: nat, end: nat, cuts: seq<nat>)
    requires i <= end <= |text| && Cut(text, i, end, cuts)
    ensures Trivia(text, i, end)
    decreases |cuts|
  {
    if |cuts| > 1 {
      var k, rest := cuts[1], cuts[1..];
      assert PieceAt(text, end, cuts, 0);
      PieceExactly(text, i, k, end);
      forall n: nat | n + 1 < |rest| ensures PieceAt(text, end, rest, n) { assert PieceAt(text, end, cuts, n + 1); }
      BlankIsTrivia(text, k, end, rest);
    }
  }

  /** The comment-skipping loop accepts exactly sequences of white space and comments. */
  lemma TriviaExactly(text: Source, i: nat, end: nat)
    requires i <= end <= |text|
    ensures Trivia(text, i, end) <==> Blank(text, i, end)
  {
    if Trivia(text, i, end) { var cuts := TriviaIsBlank(text, i, end); }
    if cuts: seq<nat> :| Cut(text, i, end, cuts) { BlankIsTrivia(text, i, end, cuts); }
  }

  // ----- Places -----

  /** Scalar `k` begins at the offset, or the text ends there. */
  predicate Spot(text: Source, offset: nat, k: nat) { k <= |text| && Offset(text, k) == offset }

  lemma SpotIsIndex(text: Source, offset: nat, k: nat)
    requires Spot(text, offset, k)
    ensures k == BoundaryAt(text, offset, |text|)
  {
    BoundaryFound(text, k, |text|);
  }

  lemma SpotExists(text: Source, offset: nat) returns (k: nat)
    requires Boundary(text, offset)
    ensures Spot(text, offset, k) && k == BoundaryAt(text, offset, |text|)
  {
    k :| 0 <= k <= |text| && Offset(text, k) == offset;
    SpotIsIndex(text, offset, k);
  }

  /** Line and column of the boundary at the offset, each in 32 bits. */
  ghost predicate Place(text: Source, offset: nat, p: Position) {
    exists k :: Spot(text, offset, k)
      && p == Position(Line(text, k) % 0x1_0000_0000, Column(text, k) % 0x1_0000_0000)
  }

  lemma PlaceExactly(text: Source, offset: nat, p: Position)
    requires Boundary(text, offset)
    ensures p == PositionAt(text, offset) <==> Place(text, offset, p)
  {
    var b := SpotExists(text, offset);
    forall k | Spot(text, offset, k) ensures k == b { SpotIsIndex(text, offset, k); }
  }

  /** The range runs from one offset to the other. */
  ghost predicate Runs(text: Source, r: Range, from: nat, to: nat) {
    Place(text, from, r.start) && Place(text, to, r.end)
  }

  lemma RunsExactly(text: Source, r: Range, from: nat, to: nat)
    requires Boundary(text, from) && Boundary(text, to)
    ensures r == RangeOf(text, from, to) <==> Runs(text, r, from, to)
  {
    PlaceExactly(text, from, r.start);
    PlaceExactly(text, to, r.end);
  }

  /** Only blank text lies between two tokens. */
  ghost predicate Apart(text: Source, a: Token, b: Token) {
    exists i, j :: Spot(text, a.end, i) && Spot(text, b.start, j) && i <= j && Blank(text, i, j)
  }

  lemma ApartExactly(text: Source, tokens: seq<Token>, k: nat)
    requires WellScanned(text, tokens) && k + 1 < |tokens|
    ensures GapIsTrivia(text, tokens, k) <==> ApartAt(text, tokens, k)
  {
    var i, j := GapBounds(text, tokens, k);
    TriviaExactly(text, i, j);
    var a, b := tokens[k].end, tokens[k + 1].start;
    forall x | Spot(text, a, x) ensures x == i { SpotIsIndex(text, a, x); }
    forall x | Spot(text, b, x) ensures x == j { SpotIsIndex(text, b, x); }
  }

  lemma GapBounds(text: Source, tokens: seq<Token>, k: nat) returns (i: nat, j: nat)
    requires WellScanned(text, tokens) && k + 1 < |tokens|
    ensures i <= j && Spot(text, tokens[k].end, i) && Spot(text, tokens[k + 1].start, j)
    ensures i == BoundaryAt(text, tokens[k].end, |text|) && j == BoundaryAt(text, tokens[k + 1].start, |text|)
  {
    i := SpotExists(text, tokens[k].end);
    j := SpotExists(text, tokens[k + 1].start);
    if j < i { OffsetGrows(text, j, i); }
  }

  ghost predicate AllApart(text: Source, tokens: seq<Token>, from: nat, to: nat)
    requires from <= to < |tokens|
  {
    forall k :: from <= k < to ==> ApartAt(text, tokens, k)
  }

  ghost predicate ApartAt(text: Source, tokens: seq<Token>, k: nat)
    requires k + 1 < |tokens|
  {
    Apart(text, tokens[k], tokens[k + 1])
  }

  lemma AllApartExactly(text: Source, tokens: seq<Token>, from: nat, to: nat)
    requires WellScanned(text, tokens) && from <= to < |tokens|
    ensures GapsAreTrivia(text, tokens, from, to) <==> AllApart(text, tokens, from, to)
  {
    forall k | from <= k < to ensures GapIsTrivia(text, tokens, k) <==> ApartAt(text, tokens, k) {
      ApartExactly(text, tokens, k);
    }
    GapsOneByOne(text, tokens, from, to);
  }

  lemma {:induction false} GapsOneByOne(text: Source, tokens: seq<Token>, from: nat, to: nat)
    requires from <= to < |tokens|
    ensures GapsAreTrivia(text, tokens, from, to) <==> forall k :: from <= k < to ==> GapIsTrivia(text, tokens, k)
    decreases |tokens| - from
  {
    if from < to { GapsOneByOne(text, tokens, from + 1, to); }
  }

  // ----- Where a declaration begins -----

  predicate Word(t: Token, text: string) { t.kind == Identifier && t.text == text }

  predicate Mark(t: Token, text: string) { t.kind == Punctuation && t.text == text }

  predicate Modifies(t: Token) {
    Word(t, "export") || Word(t, "default") || Word(t, "declare") || Word(t, "abstract")
  }

  /** From `start` on only modifiers stand before the class token, and none before them. */
  predicate FirstModifier(tokens: seq<Token>, start: nat, i: nat)
    requires i < |tokens|
  {
    && start <= i && (forall k :: start <= k < i ==> Modifies(tokens[k]))
    && (start > 0 ==> !Modifies(tokens[start - 1]))
  }

  lemma {:induction false} StartsFirst(tokens: seq<Token>, i: nat)
    requires i < |tokens|
    ensures FirstModifier(tokens, DeclarationStart(tokens, i), i)
  {
    if i > 0 && Modifier(tokens[i - 1]) { StartsFirst(tokens, i - 1); }
  }

  lemma FirstIsUnique(tokens: seq<Token>, a: nat, b: nat, i: nat)
    requires i < |tokens| && FirstModifier(tokens, a, i) && FirstModifier(tokens, b, i)
    ensures a == b
  {
  }

  predicate Expects(t: Token) {
    && t.kind == Identifier
    && t.text in ["new", "typeof", "void", "await", "yield", "instanceof", "in", "delete", "throw", "else", "do"]
  }

  ghost predicate NewLine(text: Source, a: Token, b: Token) {
    exists i, j :: Spot(text, a.end, i) && Spot(text, b.start, j) && Breaks(text, i, j)
  }

  predicate Breaks(text: Source, i: nat, j: nat)
    requires j <= |text|
  {
    exists k :: i <= k < j && (text[k] == 0x0a || text[k] == 0x0d || text[k] == 0x2028 || text[k] == 0x2029)
  }

  /** A statement can begin here: at the start, after a semicolon or a closing brace, or on a
      new line after what may end an expression. */
  ghost predicate Begins(text: Source, tokens: seq<Token>, start: nat)
    requires start < |tokens|
  {
    start > 0 ==>
      var t := tokens[start - 1];
      && !Expects(t)
      && (|| Mark(t, ";") || Mark(t, "}")
          || (NewLine(text, t, tokens[start])
              && (t.kind == Punctuation ==> EndsExpression(t))))
  }

  lemma NewLineExactly(text: Source, tokens: seq<Token>, k: nat)
    requires WellScanned(text, tokens) && k + 1 < |tokens|
    ensures GapBreaksLine(text, tokens, k) <==> NewLine(text, tokens[k], tokens[k + 1])
  {
    var i, j := GapBounds(text, tokens, k);
    var a, b := tokens[k].end, tokens[k + 1].start;
    forall x | Spot(text, a, x) ensures x == i { SpotIsIndex(text, a, x); }
    forall x | Spot(text, b, x) ensures x == j { SpotIsIndex(text, b, x); }
    if GapBreaksLine(text, tokens, k) {
      var x: nat :| i <= x < j && x < |text| && LineBreak(text[x]);
      assert Breaks(text, i, j);
    }
    if Breaks(text, i, j) {
      var x :| i <= x < j && (text[x] == 0x0a || text[x] == 0x0d || text[x] == 0x2028 || text[x] == 0x2029);
      assert LineBreak(text[x]);
    }
  }

  predicate EndsExpression(t: Token) { t.text in [")", "]", "++", "--"] }

  lemma BeginsHere(text: Source, tokens: seq<Token>, start: nat, breaks: bool)
    requires start < |tokens|
    requires start > 0 ==> breaks == NewLine(text, tokens[start - 1], tokens[start])
    requires start > 0 ==> breaks == GapBreaksLine(text, tokens, start - 1)
    ensures DeclarationBoundary(text, tokens, start) <==> Begins(text, tokens, start)
  {
  }

  // ----- The form of a declaration, and its record -----

  /** A class at token `i`, whose declaration begins at `start` and whose body opens at `body`:
      two tokens on, or four with a base. */
  ghost predicate Declares(text: Source, tokens: seq<Token>, m: Matching, i: nat, start: nat, body: nat) {
    && |tokens| == |m| && Heads(tokens, i, body) && Word(tokens[i], "class")
    && TopLevel(m, i)
    && FirstModifier(tokens, start, i) && Begins(text, tokens, start)
    && AllApart(text, tokens, start, body)
  }

  /** The record holds the name and the base's name with the ranges of their tokens, and the
      range from the first modifier to the brace that shuts the body. */
  ghost predicate Records(text: Source, tokens: seq<Token>, m: Matching, i: nat, start: nat, body: nat, c: Class)
    requires i + 2 <= body < |tokens| == |m| && start <= i
  {
    && c.name == tokens[i + 1].text && Runs(text, c.nameRange, tokens[i + 1].start, tokens[i + 1].end)
    && m[body].Some? && m[body].value < |tokens|
    && Runs(text, c.declarationRange, tokens[start].start, tokens[m[body].value].end)
    && (c.base.Some? <==> body == i + 4)
    && (c.base.Some? ==>
          && i + 3 < |tokens| && c.base.value.name == tokens[i + 3].text
          && Runs(text, c.base.value.range, tokens[i + 3].start, tokens[i + 3].end))
  }

  /** The tokens from the class token to the body's brace. */
  predicate Heads(tokens: seq<Token>, i: nat, body: nat) {
    && i + 2 <= body < |tokens|
    && tokens[i + 1].kind == Identifier && tokens[i + 1].text != "extends" && tokens[i + 1].text != "implements"
    && (body == i + 2
        || (body == i + 4 && tokens[i + 2].text == "extends" && tokens[i + 3].kind == Identifier))
    && Mark(tokens[body], "{")
  }

  lemma HeaderIsForm(text: Source, tokens: seq<Token>, i: nat)
    requires WellScanned(text, tokens) && i < |tokens|
    ensures HeaderAt(text, tokens, i).Some? <==>
      Heads(tokens, i, BodyOf(tokens, i)) && AllApart(text, tokens, i, BodyOf(tokens, i))
  {
    if BodyOf(tokens, i) < |tokens| { AllApartExactly(text, tokens, i, BodyOf(tokens, i)); }
  }

  predicate TopLevel(m: Matching, i: nat)
    requires i <= |m|
  {
    forall k :: 0 <= k < i && m[k].Some? ==> m[k].value < i
  }

  lemma TopLevelExactly(tokens: seq<Token>, s: Structure, i: nat)
    requires WellNested(tokens, s.closes) && StructureOf(tokens) == Some(s) && i < |tokens|
    ensures |s.depths| == |tokens| && (s.depths[i] == 0 <==> TopLevel(s.closes, i))
  {
    DelimitersMatchExactly(tokens, s.closes);
    var around := Enclosing(s.closes, i);
    if s.depths[i] == 0 {
      assert around == {};
      forall k | 0 <= k < i && s.closes[k].Some? ensures s.closes[k].value < i { assert k !in around; }
    }
    if TopLevel(s.closes, i) { assert around == {}; }
  }

  lemma AllApartJoins(text: Source, tokens: seq<Token>, a: nat, b: nat, c: nat)
    requires a <= b <= c < |tokens|
    ensures AllApart(text, tokens, a, c) <==> AllApart(text, tokens, a, b) && AllApart(text, tokens, b, c)
  {
  }

  lemma HeaderOfParts(text: Source, tokens: seq<Token>, depths: seq<nat>, i: nat, heads: bool, gaps: bool, begins: bool)
    requires i < |tokens| == |depths| && heads == HeaderAt(text, tokens, i).Some?
    requires gaps == GapsAreTrivia(text, tokens, DeclarationStart(tokens, i), i)
    requires begins == DeclarationBoundary(text, tokens, DeclarationStart(tokens, i))
    ensures HeaderOf(text, tokens, depths, i).Some? <==>
      Word(tokens[i], "class") && heads && depths[i] == 0 && gaps && begins
  {
  }

  lemma NewLineBefore(text: Source, tokens: seq<Token>, start: nat, breaks: bool)
    requires WellScanned(text, tokens) && start < |tokens|
    requires start > 0 ==> breaks == NewLine(text, tokens[start - 1], tokens[start])
    ensures start > 0 ==> breaks == GapBreaksLine(text, tokens, start - 1)
  {
    if start > 0 { NewLineExactly(text, tokens, start - 1); }
  }

  lemma HeaderParts(text: Source, tokens: seq<Token>, s: Structure, i: nat, start: nat, body: nat, begins: bool)
    requires WellScanned(text, tokens) && WellNested(tokens, s.closes) && StructureOf(tokens) == Some(s)
    requires i < |tokens| && |s.depths| == |tokens| && start == DeclarationStart(tokens, i) && body == BodyOf(tokens, i)
    requires begins == DeclarationBoundary(text, tokens, start)
    ensures HeaderOf(text, tokens, s.depths, i).Some? <==>
      && Word(tokens[i], "class") && Heads(tokens, i, body) && AllApart(text, tokens, i, body)
      && TopLevel(s.closes, i) && AllApart(text, tokens, start, i) && begins
  {
    HeaderIsForm(text, tokens, i);
    TopLevelExactly(tokens, s, i);
    AllApartExactly(text, tokens, start, i);
    HeaderOfParts(text, tokens, s.depths, i, Heads(tokens, i, body) && AllApart(text, tokens, i, body),
                  AllApart(text, tokens, start, i), begins);
  }

  lemma DeclaresParts(text: Source, tokens: seq<Token>, m: Matching, i: nat, start: nat, body: nat)
    requires |m| == |tokens| && i < |tokens| && FirstModifier(tokens, start, i)
    ensures Declares(text, tokens, m, i, start, body) <==>
      && Word(tokens[i], "class") && Heads(tokens, i, body) && AllApart(text, tokens, i, body)
      && TopLevel(m, i) && AllApart(text, tokens, start, i) && Begins(text, tokens, start)
  {
    if Heads(tokens, i, body) { AllApartJoins(text, tokens, start, i, body); }
  }

  /** A header is found at a token exactly when a declaration of the form is there. */
  lemma HeaderExactly(text: Source, tokens: seq<Token>, s: Structure, i: nat, start: nat, body: nat)
    requires WellScanned(text, tokens) && WellNested(tokens, s.closes) && StructureOf(tokens) == Some(s)
    requires i < |tokens| && |s.depths| == |tokens|
    ensures Declares(text, tokens, s.closes, i, start, body) <==>
      && HeaderOf(text, tokens, s.depths, i).Some?
      && start == DeclarationStart(tokens, i) && body == BodyOf(tokens, i)
  {
    StartsFirst(tokens, i);
    var first := DeclarationStart(tokens, i);
    var breaks := first > 0 && NewLine(text, tokens[first - 1], tokens[first]);
    NewLineBefore(text, tokens, first, breaks);
    BeginsHere(text, tokens, first, breaks);
    HeaderParts(text, tokens, s, i, first, BodyOf(tokens, i), Begins(text, tokens, first));
    DeclaresParts(text, tokens, s.closes, i, DeclarationStart(tokens, i), BodyOf(tokens, i));
    if Declares(text, tokens, s.closes, i, start, body) {
      PartsAreUnique(text, tokens, s.closes, i, start, body);
    }
  }

  lemma PartsAreUnique(text: Source, tokens: seq<Token>, m: Matching, i: nat, start: nat, body: nat)
    requires i < |tokens| && Declares(text, tokens, m, i, start, body)
    ensures start == DeclarationStart(tokens, i) && body == BodyOf(tokens, i)
  {
    StartsFirst(tokens, i);
    FirstIsUnique(tokens, start, DeclarationStart(tokens, i), i);
  }

  lemma RecordExactly(text: Source, tokens: seq<Token>, s: Structure, hs: Headers, i: nat, c: Class)
    requires Read(text, tokens, s, hs) && i < |tokens| && hs[i].Some?
    ensures c == ClassOf(text, tokens, s.closes, hs, i) <==>
      Records(text, tokens, s.closes, i, DeclarationStart(tokens, i), BodyOf(tokens, i), c)
  {
    var h := hs[i].value;
    assert HeaderOf(text, tokens, s.depths, i) == Some(h);
    BodyIsShut(text, tokens, s.closes, i, h);
    var start, last := DeclarationStart(tokens, i), s.closes[h.body].value;
    RunsExactly(text, c.nameRange, tokens[i + 1].start, tokens[i + 1].end);
    RunsExactly(text, c.declarationRange, tokens[start].start, tokens[last].end);
    if c.base.Some? && h.base.Some? { RunsExactly(text, c.base.value.range, tokens[i + 3].start, tokens[i + 3].end); }
  }

  // ----- The whole document -----

  /** `at` lists the class tokens of all declarations of the form, in order, and the records
      are theirs one by one. */
  ghost predicate Recorded(text: Source, tokens: seq<Token>, m: Matching, at: seq<nat>, classes: seq<Class>) {
    && |at| == |classes|
    && (forall k, l :: 0 <= k < l < |at| ==> at[k] < at[l])
    && (forall i: nat :: i in at <==> IsDeclaration(text, tokens, m, i))
    && forall k: nat :: k < |at| ==> RecordedAt(text, tokens, m, at[k], classes[k])
  }

  ghost predicate IsDeclaration(text: Source, tokens: seq<Token>, m: Matching, i: nat) {
    exists start, body :: Declares(text, tokens, m, i, start, body)
  }

  ghost predicate RecordedAt(text: Source, tokens: seq<Token>, m: Matching, i: nat, c: Class) {
    exists start, body :: Declares(text, tokens, m, i, start, body) && Records(text, tokens, m, i, start, body, c)
  }

  /** The tokens before `n` with a header. */
  function HeaderIndices(hs: Headers, n: nat): (at: seq<nat>)
    requires n <= |hs|
    ensures forall k :: 0 <= k < |at| ==> at[k] < n && hs[at[k]].Some?
  {
    if n == 0 then [] else HeaderIndices(hs, n - 1) + if hs[n - 1].Some? then [n - 1] else []
  }

  lemma {:induction false} IndicesAreInOrder(hs: Headers, n: nat)
    requires n <= |hs|
    ensures var at := HeaderIndices(hs, n);
      && (forall k, l :: 0 <= k < l < |at| ==> at[k] < at[l])
      && forall i: nat :: i in at <==> i < n && hs[i].Some?
  {
    if n > 0 { IndicesAreInOrder(hs, n - 1); }
  }

  lemma {:induction false} PickedByIndex(t: Table, hs: Headers, n: nat)
    requires n <= |t| == |hs| && forall i :: 0 <= i < |t| ==> (t[i].Some? <==> hs[i].Some?)
    ensures |Pick(t, n)| == |HeaderIndices(hs, n)|
    ensures forall k :: 0 <= k < |Pick(t, n)| ==> t[HeaderIndices(hs, n)[k]] == Some(Pick(t, n)[k])
  {
    if n > 0 { PickedByIndex(t, hs, n - 1); }
  }

  /** The headers are those of the declarations of the form. */
  ghost predicate Agrees(text: Source, tokens: seq<Token>, m: Matching, hs: Headers) {
    && |hs| == |tokens|
    && (forall i: nat, start: nat, body: nat :: Declares(text, tokens, m, i, start, body) ==> i < |hs| && hs[i].Some?)
    && forall i: nat :: i < |hs| && hs[i].Some? ==>
         && Declares(text, tokens, m, i, DeclarationStart(tokens, i), BodyOf(tokens, i))
         && hs[i].value.clause == if BodyOf(tokens, i) == i + 4 then Some(i + 2) else None
  }

  lemma HeadersAgree(text: Source, tokens: seq<Token>, s: Structure, hs: Headers)
    requires Read(text, tokens, s, hs)
    ensures Agrees(text, tokens, s.closes, hs)
  {
    forall i: nat, start: nat, body: nat | Declares(text, tokens, s.closes, i, start, body)
      ensures i < |hs| && hs[i].Some?
    {
      HeaderExactly(text, tokens, s, i, start, body);
    }
    forall i: nat | i < |hs| && hs[i].Some?
      ensures Declares(text, tokens, s.closes, i, DeclarationStart(tokens, i), BodyOf(tokens, i))
      ensures hs[i].value.clause == if BodyOf(tokens, i) == i + 4 then Some(i + 2) else None
    {
      assert hs[i] == HeaderOf(text, tokens, s.depths, i);
      HeaderExactly(text, tokens, s, i, DeclarationStart(tokens, i), BodyOf(tokens, i));
    }
  }

  lemma DeclaresSome(text: Source, tokens: seq<Token>, m: Matching, hs: Headers, i: nat)
    requires Agrees(text, tokens, m, hs)
    ensures IsDeclaration(text, tokens, m, i) <==> i < |hs| && hs[i].Some?
  {
  }

  lemma ClassIsRecorded(text: Source, tokens: seq<Token>, s: Structure, hs: Headers, i: nat)
    requires Read(text, tokens, s, hs) && i < |tokens| && hs[i].Some?
    ensures RecordedAt(text, tokens, s.closes, i, ClassOf(text, tokens, s.closes, hs, i))
  {
    HeaderExactly(text, tokens, s, i, DeclarationStart(tokens, i), BodyOf(tokens, i));
    RecordExactly(text, tokens, s, hs, i, ClassOf(text, tokens, s.closes, hs, i));
  }

  /** Complete: every class token is a declaration of the form, and every `extends` is the one
      of such a declaration with a base. */
  ghost predicate AllAccounted(text: Source, tokens: seq<Token>, m: Matching) {
    && (forall i: nat :: i < |tokens| && Word(tokens[i], "class") ==> IsDeclaration(text, tokens, m, i))
    && forall e: nat :: e < |tokens| && Word(tokens[e], "extends") ==>
         IsClause(text, tokens, m, e)
  }

  /** The second token of a declaration with a base. */
  ghost predicate IsClause(text: Source, tokens: seq<Token>, m: Matching, e: nat) {
    e >= 2 && HasBase(text, tokens, m, e - 2)
  }

  ghost predicate HasBase(text: Source, tokens: seq<Token>, m: Matching, i: nat) {
    exists start, body :: Declares(text, tokens, m, i, start, body) && body == i + 4
  }

  lemma ClauseExactly(text: Source, tokens: seq<Token>, m: Matching, hs: Headers, e: nat)
    requires Agrees(text, tokens, m, hs)
    ensures Classifies(hs, e) <==> IsClause(text, tokens, m, e)
  {
    if Classifies(hs, e) {
      var i: nat :| i < |hs| && hs[i].Some? && hs[i].value.clause == Some(e);
      assert Declares(text, tokens, m, i, DeclarationStart(tokens, i), BodyOf(tokens, i));
    }
    if IsClause(text, tokens, m, e) {
      var start, body :| Declares(text, tokens, m, e - 2, start, body) && body == e + 2;
      BaseIsClause(text, tokens, m, hs, e - 2, start);
    }
  }

  lemma BaseIsClause(text: Source, tokens: seq<Token>, m: Matching, hs: Headers, i: nat, start: nat)
    requires Agrees(text, tokens, m, hs) && Declares(text, tokens, m, i, start, i + 4)
    ensures Classifies(hs, i + 2)
  {
    PartsAreUnique(text, tokens, m, i, start, i + 4);
    assert hs[i].value.clause == Some(i + 2);
  }

  lemma CompleteExactly(text: Source, tokens: seq<Token>, m: Matching, hs: Headers)
    requires Agrees(text, tokens, m, hs)
    ensures FullyClassified(tokens, hs) <==> AllAccounted(text, tokens, m)
  {
    forall i: nat ensures IsDeclaration(text, tokens, m, i) <==> i < |hs| && hs[i].Some? {
      DeclaresSome(text, tokens, m, hs, i);
    }
    forall e: nat ensures Classifies(hs, e) <==> IsClause(text, tokens, m, e) {
      ClauseExactly(text, tokens, m, hs, e);
    }
    CompleteFromParts(text, tokens, m, hs);
  }

  lemma CompleteFromParts(text: Source, tokens: seq<Token>, m: Matching, hs: Headers)
    requires |hs| == |tokens|
    requires forall i: nat :: IsDeclaration(text, tokens, m, i) <==> i < |hs| && hs[i].Some?
    requires forall e: nat :: Classifies(hs, e) <==> IsClause(text, tokens, m, e)
    ensures FullyClassified(tokens, hs) <==> AllAccounted(text, tokens, m)
  {
  }

  /** The parse fails exactly when the delimiters are not well nested. Otherwise it records
      exactly the declarations of the form, in order, each as the form says, and is complete
      exactly when the scan was certain and everything is accounted for. */
  lemma HeritageExactly(uri: string, text: Source, tokens: seq<Token>, uncertain: bool, m: Matching)
    requires WellScanned(text, tokens)
    ensures WellNested(tokens, m) ==>
      var h := HeritageOf(uri, text, tokens, uncertain);
      && h.Some? && h.value.uri == uri
      && (exists at :: Recorded(text, tokens, m, at, h.value.classes))
      && (h.value.complete <==> !uncertain && AllAccounted(text, tokens, m))
    ensures HeritageOf(uri, text, tokens, uncertain).Some? <==> exists m :: WellNested(tokens, m)
  {
    DelimitersMatchExactly(tokens, m);
    if WellNested(tokens, m) {
      var s := StructureOf(tokens).value;
      StructureIsUsable(text, tokens);
      var hs := HeadersOf(text, tokens, s.depths);
      HeadersAgree(text, tokens, s, hs);
      HeritageRecords(text, tokens, s, hs, TableOf(text, tokens, s.closes, hs));
      CompleteExactly(text, tokens, s.closes, hs);
    }
    if StructureOf(tokens).Some? { StructureIsUsable(text, tokens); }
    if n :| WellNested(tokens, n) { DelimitersMatchExactly(tokens, n); }
  }

  lemma HeritageRecords(text: Source, tokens: seq<Token>, s: Structure, hs: Headers, t: Table)
    requires Read(text, tokens, s, hs) && t == TableOf(text, tokens, s.closes, hs)
    ensures Recorded(text, tokens, s.closes, HeaderIndices(hs, |hs|), Pick(t, |t|))
  {
    HeadersAgree(text, tokens, s, hs);
    forall i: nat | i < |hs| && hs[i].Some? ensures RecordedAt(text, tokens, s.closes, i, t[i].value) {
      ClassIsRecorded(text, tokens, s, hs, i);
    }
    TableIsRecorded(text, tokens, s.closes, hs, t);
  }

  lemma TableIsRecorded(text: Source, tokens: seq<Token>, m: Matching, hs: Headers, t: Table)
    requires Agrees(text, tokens, m, hs) && |t| == |hs| && forall i :: 0 <= i < |t| ==> (t[i].Some? <==> hs[i].Some?)
    requires forall i: nat :: i < |hs| && hs[i].Some? ==> RecordedAt(text, tokens, m, i, t[i].value)
    ensures Recorded(text, tokens, m, HeaderIndices(hs, |hs|), Pick(t, |t|))
  {
    IndicesAreInOrder(hs, |hs|);
    IndicesAreDeclarations(text, tokens, m, hs);
    PickedByIndex(t, hs, |hs|);
  }

  lemma IndicesAreDeclarations(text: Source, tokens: seq<Token>, m: Matching, hs: Headers)
    requires Agrees(text, tokens, m, hs)
    ensures forall i: nat :: i in HeaderIndices(hs, |hs|) <==> IsDeclaration(text, tokens, m, i)
  {
    IndicesAreInOrder(hs, |hs|);
    forall i: nat ensures i in HeaderIndices(hs, |hs|) <==> IsDeclaration(text, tokens, m, i) {
      DeclaresSome(text, tokens, m, hs, i);
    }
  }

  // ----- Exports -----

  lemma SamePlaceSameToken(text: Source, tokens: seq<Token>, a: nat, b: nat)
    requires WellScanned(text, tokens) && TokensFit(text, tokens) && a < |tokens| && b < |tokens|
    requires tokens[a].kind == Identifier && tokens[b].kind == Identifier
    requires PositionAt(text, tokens[a].start) == PositionAt(text, tokens[b].start)
    ensures a == b
  {
    if a < b {
      OffsetsOrderPositions(text, tokens[a].start, tokens[b].start);
    } else if b < a {
      OffsetsOrderPositions(text, tokens[b].start, tokens[a].start);
    }
  }

  lemma DeclarationBegins(text: Source, tokens: seq<Token>, m: Matching, i: nat, start: nat, body: nat)
    requires Declares(text, tokens, m, i, start, body)
    ensures start <= i < |tokens| && FirstModifier(tokens, start, i) && tokens[start].kind == Identifier
  {
    assert start < i ==> Modifies(tokens[start]);
  }

  lemma RecordBegins(text: Source, tokens: seq<Token>, m: Matching, i: nat, start: nat, body: nat, c: Class)
    requires WellScanned(text, tokens)
    requires Declares(text, tokens, m, i, start, body) && Records(text, tokens, m, i, start, body, c)
    ensures c.declarationRange.start == PositionAt(text, tokens[start].start)
  {
    PlaceExactly(text, tokens[start].start, c.declarationRange.start);
  }

  lemma ExportPositionFrom(text: Source, tokens: seq<Token>, p: Position) returns (j: nat)
    requires p in ExportPositions(text, tokens)
    ensures j < |tokens| && Word(tokens[j], "export") && PositionAt(text, tokens[j].start) == p
  {
    var t :| t in tokens && t.kind == Identifier && t.text == "export" && PositionAt(text, t.start) == p;
    j :| 0 <= j < |tokens| && tokens[j] == t;
  }

  lemma ExportPositionHolds(text: Source, tokens: seq<Token>, j: nat)
    requires j < |tokens| && Word(tokens[j], "export")
    ensures PositionAt(text, tokens[j].start) in ExportPositions(text, tokens)
  {
    assert tokens[j] in tokens;
  }

  lemma ExportIsFirst(text: Source, tokens: seq<Token>, start: nat, p: Position)
    requires WellScanned(text, tokens) && TokensFit(text, tokens)
    requires start < |tokens| && tokens[start].kind == Identifier && p == PositionAt(text, tokens[start].start)
    ensures p in ExportPositions(text, tokens) <==> Word(tokens[start], "export")
  {
    if Word(tokens[start], "export") {
      ExportPositionHolds(text, tokens, start);
    } else if p in ExportPositions(text, tokens) {
      var j := ExportPositionFrom(text, tokens, p);
      SamePlaceSameToken(text, tokens, j, start);
    }
  }

  /** The declaration begins with the word `export`. */
  predicate Exported(tokens: seq<Token>, i: nat)
    requires i < |tokens|
  {
    exists start :: 0 <= start <= i && FirstModifier(tokens, start, i) && Word(tokens[start], "export")
  }

  lemma ExportedByFirst(tokens: seq<Token>, i: nat, start: nat)
    requires i < |tokens| && FirstModifier(tokens, start, i)
    ensures Exported(tokens, i) <==> Word(tokens[start], "export")
  {
    forall a: nat | a <= i && FirstModifier(tokens, a, i) ensures a == start { FirstIsUnique(tokens, a, start, i); }
  }

  lemma RecordedExport(text: Source, tokens: seq<Token>, m: Matching, i: nat, c: Class)
    requires WellScanned(text, tokens) && TokensFit(text, tokens) && RecordedAt(text, tokens, m, i, c)
    ensures i < |tokens|
    ensures c.declarationRange.start in ExportPositions(text, tokens) <==> Exported(tokens, i)
  {
    var start, body :| Declares(text, tokens, m, i, start, body) && Records(text, tokens, m, i, start, body, c);
    DeclarationBegins(text, tokens, m, i, start, body);
    RecordBegins(text, tokens, m, i, start, body, c);
    ExportIsFirst(text, tokens, start, c.declarationRange.start);
    ExportedByFirst(tokens, i, start);
  }

  /** Where positions fit, the provenance is supported exactly when the heritage is complete
      and the module syntax was understood, and then lists the names of exactly the classes
      whose declarations begin with `export`. */
  lemma ExportsExactly(uri: string, text: Source, tokens: seq<Token>, uncertain: bool, bindingsSupported: bool,
                       m: Matching, at: seq<nat>)
    requires WellScanned(text, tokens) && TokensFit(text, tokens) && HeritageOf(uri, text, tokens, uncertain).Some?
    requires Recorded(text, tokens, m, at, HeritageOf(uri, text, tokens, uncertain).value.classes)
    ensures var h := HeritageOf(uri, text, tokens, uncertain);
      var p := SourceProvenance(text, tokens, h, bindingsSupported);
      && (p.supported <==> h.value.complete && bindingsSupported)
      && (p.supported ==> forall k: nat :: k < |at| ==>
           at[k] < |tokens| && (h.value.classes[k].nameRange in p.directExports <==> Exported(tokens, at[k])))
  {
    var h := HeritageOf(uri, text, tokens, uncertain);
    var classes, positions := h.value.classes, ExportPositions(text, tokens);
    if h.value.complete && bindingsSupported {
      ParsedHeritageIsValid(uri, text, tokens, uncertain);
      OrderedClassesHaveDistinctNames(classes);
      forall k: nat | k < |at|
        ensures at[k] < |tokens|
        ensures classes[k].nameRange in ExportedAt(classes, |classes|, positions) <==> Exported(tokens, at[k])
      {
        ListedIsExported(classes, positions, k);
        RecordedExport(text, tokens, m, at[k], classes[k]);
      }
    }
  }
}
