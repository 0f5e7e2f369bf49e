/** Class declarations parsed from a token stream: which forms are supported, what is
    recorded of them, and when the document counts as completely understood. */
module ClassHeritage {
  import opened Options
  import opened ClassFacts
  import opened LineIndex
  import opened Delimiters

  // ----- The token stream -----

  /** Tokens lie on character boundaries in source order; only a string literal, whose
      quotes are left out, may be empty. */
  ghost predicate WellScanned(text: Source, tokens: seq<Token>) {
    && (forall i :: 0 <= i < |tokens| ==>
          && Boundary(text, tokens[i].start) && Boundary(text, tokens[i].end) && tokens[i].start <= tokens[i].end
          && (tokens[i].kind != StringLiteral ==> tokens[i].start < tokens[i].end && tokens[i].text != ""))
    && forall i, j :: 0 <= i < j < |tokens| ==> tokens[i].end <= tokens[j].start
  }

  function PositionAt(text: Source, offset: nat): Position {
    At(text, BoundaryAt(text, offset, |text|))
  }

  function RangeOf(text: Source, start: nat, end: nat): Range {
    Range(PositionAt(text, start), PositionAt(text, end))
  }

  // ----- Gaps -----

  predicate White(r: Rune) {
    || 0x09 <= r <= 0x0d || r == 0x20 || r == 0x85 || r == 0xa0 || r == 0x1680 || 0x2000 <= r <= 0x200a
    || r == 0x2028 || r == 0x2029 || r == 0x202f || r == 0x205f || r == 0x3000
  }

  const SLASH: Rune := 0x2f
  const STAR: Rune := 0x2a

  predicate Two(text: Source, i: nat, end: nat, a: Rune, b: Rune)
    requires end <= |text|
  {
    i + 1 < end && text[i] == a && text[i + 1] == b
  }

  /** The first newline from `i` on, or `end`. */
  function LineEnd(text: Source, i: nat, end: nat): (k: nat)
    requires i <= end <= |text|
    ensures i <= k <= end
    ensures forall j :: i <= j < k ==> text[j] as nat != NEWLINE
    decreases end - i
  {
    if i == end || text[i] as nat == NEWLINE then i else LineEnd(text, i + 1, end)
  }

  /** Just past the first comment end from `i` on; a comment may not end at all. */
  function CommentEnd(text: Source, i: nat, end: nat): (k: Option<nat>)
    requires i <= end <= |text|
    ensures k.Some? ==> i + 2 <= k.value <= end
    decreases end - i
  {
    if i == end then None else if Two(text, i, end, STAR, SLASH) then Some(i + 2) else CommentEnd(text, i + 1, end)
  }

  /** Only white space and comments from `i` to `end`. */
  predicate Trivia(text: Source, i: nat, end: nat)
    requires i <= end <= |text|
    decreases end - i
  {
    if i == end then true
    else if White(text[i]) then Trivia(text, i + 1, end)
    else if Two(text, i, end, SLASH, SLASH) then Trivia(text, LineEnd(text, i + 2, end), end)
    else if Two(text, i, end, SLASH, STAR) then
      var k := CommentEnd(text, i, end);
      k.Some? && Trivia(text, k.value, end)
    else false
  }

  method IsTrivia(text: Source, from: nat, end: nat) returns (r: bool)
    requires from <= end <= |text|
    ensures r == Trivia(text, from, end)
  {
    var i := from;
    while i < end
      invariant from <= i <= end
      invariant Trivia(text, from, end) == Trivia(text, i, end)
    {
      if White(text[i]) {
        i := i + 1;
      } else if Two(text, i, end, SLASH, SLASH) {
        i := LineEnd(text, i + 2, end);
      } else if Two(text, i, end, SLASH, STAR) {
        var k := CommentEnd(text, i, end);
        if k.None? { return false; }
        i := k.value;
      } else {
        return false;
      }
    }
    r := true;
  }

  /** The gap between token `i` and the next. */
  predicate GapIsTrivia(text: Source, tokens: seq<Token>, i: nat)
    requires i + 1 < |tokens|
  {
    var from, end := BoundaryAt(text, tokens[i].end, |text|), BoundaryAt(text, tokens[i + 1].start, |text|);
    from <= end && Trivia(text, from, end)
  }

  predicate GapsAreTrivia(text: Source, tokens: seq<Token>, i: nat, j: nat)
    requires i <= j < |tokens|
    decreases j - i
  {
    i == j || (GapIsTrivia(text, tokens, i) && GapsAreTrivia(text, tokens, i + 1, j))
  }

  predicate LineBreak(r: Rune) { r == 0x0a || r == 0x0d || r == 0x2028 || r == 0x2029 }

  predicate GapBreaksLine(text: Source, tokens: seq<Token>, i: nat)
    requires i + 1 < |tokens|
  {
    var from, end := BoundaryAt(text, tokens[i].end, |text|), BoundaryAt(text, tokens[i + 1].start, |text|);
    exists k :: from <= k < end && k < |text| && LineBreak(text[k])
  }

  // ----- Declarations -----

  predicate Modifier(t: Token) {
    t.kind == Identifier && (t.text == "export" || t.text == "default" || t.text == "declare" || t.text == "abstract")
  }

  /** The first of the modifiers that stand directly before token `i`. */
  function DeclarationStart(tokens: seq<Token>, i: nat): (s: nat)
    requires i < |tokens|
    ensures s <= i && forall k :: s <= k < i ==> Modifier(tokens[k])
  {
    if i > 0 && Modifier(tokens[i - 1]) then DeclarationStart(tokens, i - 1) else i
  }

  method FindDeclarationStart(tokens: seq<Token>, i: nat) returns (s: nat)
    requires i < |tokens|
    ensures s == DeclarationStart(tokens, i)
  {
    s := i;
    while s > 0 && Modifier(tokens[s - 1])
      invariant 0 <= s <= i && DeclarationStart(tokens, i) == DeclarationStart(tokens, s)
    {
      s := s - 1;
    }
  }

  predicate Operator(t: Token) {
    t.kind == Identifier
    && t.text in ["new", "typeof", "void", "await", "yield", "instanceof", "in", "delete", "throw", "else", "do"]
  }

  predicate DeclarationBoundary(text: Source, tokens: seq<Token>, start: nat)
    requires start < |tokens|
  {
    if start == 0 then true
    else
      var previous := tokens[start - 1];
      if Operator(previous) then false
      else if previous.kind == Punctuation && (previous.text == ";" || previous.text == "}") then true
      else
        && GapBreaksLine(text, tokens, start - 1)
        && (previous.kind != Punctuation || previous.text in [")", "]", "++", "--"])
  }

  /** Token indices of a class header. */
  datatype Header = Header(name: nat, base: Option<nat>, body: nat, clause: Option<nat>)

  function BodyOf(tokens: seq<Token>, i: nat): nat {
    if i + 2 < |tokens| && tokens[i + 2].text == "extends" then i + 4 else i + 2
  }

  function HeaderAt(text: Source, tokens: seq<Token>, i: nat): (h: Option<Header>)
    requires i < |tokens|
    ensures h.Some? ==>
      && h.value.name == i + 1 && h.value.body < |tokens| && h.value.body == BodyOf(tokens, i)
      && tokens[i + 1].kind == Identifier && tokens[i + 1].text != "extends"
      && tokens[h.value.body].kind == Punctuation && tokens[h.value.body].text == "{"
      && (h.value.base.Some? <==> h.value.clause.Some?) && (h.value.base.Some? <==> h.value.body == i + 4)
      && (h.value.base.Some? ==>
            && h.value.base.value == i + 3 && h.value.clause.value == i + 2
            && tokens[i + 3].kind == Identifier && tokens[i + 2].text == "extends")
  {
    if i + 2 >= |tokens| || tokens[i + 1].kind != Identifier
       || tokens[i + 1].text == "extends" || tokens[i + 1].text == "implements" then None
    else
      var derived := tokens[i + 2].text == "extends";
      var body := BodyOf(tokens, i);
      if derived && (i + 3 >= |tokens| || tokens[i + 3].kind != Identifier) then None
      else if body >= |tokens| then None
      else if tokens[body].kind == Punctuation && tokens[body].text == "{" && GapsAreTrivia(text, tokens, i, body) then
        Some(Header(i + 1, if derived then Some(i + 3) else None, body, if derived then Some(i + 2) else None))
      else None
  }

  predicate ClassToken(t: Token) { t.kind == Identifier && t.text == "class" }

  predicate ExtendsToken(t: Token) { t.kind == Identifier && t.text == "extends" }

  /** The header of a supported class declaration at token `i`. */
  function HeaderOf(text: Source, tokens: seq<Token>, depths: seq<nat>, i: nat): (h: Option<Header>)
    requires i < |tokens| == |depths|
    ensures h.Some? ==> ClassToken(tokens[i]) && h == HeaderAt(text, tokens, i) && depths[i] == 0
  {
    if !ClassToken(tokens[i]) then None
    else
      var h, start := HeaderAt(text, tokens, i), DeclarationStart(tokens, i);
      if h.Some? && depths[i] == 0 && GapsAreTrivia(text, tokens, start, i) && DeclarationBoundary(text, tokens, start)
      then h else None
  }

  type Headers = seq<Option<Header>>

  function HeadersOf(text: Source, tokens: seq<Token>, depths: seq<nat>): (hs: Headers)
    requires |depths| == |tokens|
    ensures |hs| == |tokens|
  {
    seq(|tokens|, i requires 0 <= i < |tokens| => HeaderOf(text, tokens, depths, i))
  }

  function Declared(text: Source, tokens: seq<Token>, i: nat, h: Header, close: nat): Class
    requires i < |tokens| && h.name < |tokens| && close < |tokens| && (h.base.Some? ==> h.base.value < |tokens|)
  {
    Class(tokens[h.name].text, RangeOf(text, tokens[h.name].start, tokens[h.name].end),
          RangeOf(text, tokens[DeclarationStart(tokens, i)].start, tokens[close].end),
          if h.base.None? then None
          else Some(Base(tokens[h.base.value].text,
                         RangeOf(text, tokens[h.base.value].start, tokens[h.base.value].end))))
  }

  /** The headers name tokens of the stream and their bodies are shut. */
  predicate Usable(tokens: seq<Token>, closes: Matching, hs: Headers) {
    && |closes| == |hs| == |tokens|
    && forall i :: 0 <= i < |hs| && hs[i].Some? ==>
         && hs[i].value.name < |tokens| && (hs[i].value.base.Some? ==> hs[i].value.base.value < |tokens|)
         && hs[i].value.body < |tokens| && closes[hs[i].value.body].Some? && closes[hs[i].value.body].value < |tokens|
  }

  function ClassOf(text: Source, tokens: seq<Token>, closes: Matching, hs: Headers, i: nat): Class
    requires Usable(tokens, closes, hs) && i < |tokens| && hs[i].Some?
  {
    Declared(text, tokens, i, hs[i].value, closes[hs[i].value.body].value)
  }

  /** The class that begins at each token, where one does. */
  type Table = seq<Option<Class>>

  function TableOf(text: Source, tokens: seq<Token>, closes: Matching, hs: Headers): (t: Table)
    requires Usable(tokens, closes, hs)
    ensures |t| == |tokens|
  {
    seq(|tokens|, i requires 0 <= i < |tokens| =>
      if hs[i].Some? then Some(ClassOf(text, tokens, closes, hs, i)) else None)
  }

  /** The classes before token `n`. */
  function Pick(t: Table, n: nat): seq<Class>
    requires n <= |t|
  {
    if n == 0 then [] else Pick(t, n - 1) + if t[n - 1].Some? then [t[n - 1].value] else []
  }

  predicate AllSupported(tokens: seq<Token>, hs: Headers, n: nat)
    requires n <= |tokens| == |hs|
  {
    forall i :: 0 <= i < n && ClassToken(tokens[i]) ==> hs[i].Some?
  }

  /** The `extends` at token `e` belongs to a supported class. */
  predicate Classifies(hs: Headers, e: nat) {
    exists i :: 0 <= i < |hs| && hs[i].Some? && hs[i].value.clause == Some(e)
  }

  /** Every class token is a supported declaration and every `extends` belongs to one. */
  predicate FullyClassified(tokens: seq<Token>, hs: Headers)
    requires |hs| == |tokens|
  {
    && AllSupported(tokens, hs, |tokens|)
    && forall e :: 0 <= e < |tokens| && ExtendsToken(tokens[e]) ==> Classifies(hs, e)
  }

  function HeritageOf(uri: string, text: Source, tokens: seq<Token>, uncertain: bool): Option<Heritage> {
    var s := StructureOf(tokens);
    if s.None? then None
    else
      StructureIsUsable(text, tokens);
      var hs := HeadersOf(text, tokens, s.value.depths);
      var t := TableOf(text, tokens, s.value.closes, hs);
      Some(Heritage(uri, Pick(t, |t|), !uncertain && FullyClassified(tokens, hs)))
  }

  lemma StructureIsUsable(text: Source, tokens: seq<Token>)
    requires StructureOf(tokens).Some?
    ensures var s := StructureOf(tokens).value;
      && WellNested(tokens, s.closes) && |s.depths| == |s.closes| == |tokens|
      && Usable(tokens, s.closes, HeadersOf(text, tokens, s.depths))
  {
    StructureIsWellNested(tokens);
    var s := StructureOf(tokens).value;
    DelimitersMatchExactly(tokens, s.closes);
    var hs := HeadersOf(text, tokens, s.depths);
    forall i: nat | i < |hs| && hs[i].Some?
      ensures s.closes[hs[i].value.body].Some? && hs[i].value.body < s.closes[hs[i].value.body].value < |tokens|
    {
      BodyIsShut(text, tokens, s.closes, i, hs[i].value);
    }
  }

  /** The body of a supported class is shut. */
  lemma BodyIsShut(text: Source, tokens: seq<Token>, closes: Matching, i: nat, h: Header)
    requires WellNested(tokens, closes) && i < |tokens| && HeaderAt(text, tokens, i) == Some(h)
    ensures closes[h.body].Some? && h.body < closes[h.body].value < |tokens|
  {
    assert Opens(tokens[h.body]);
    assert MatchesAt(tokens, closes, h.body);
  }

  // ----- The parse -----

  method FindRange(text: Source, starts: seq<nat>, start: nat, end: nat) returns (r: Range)
    requires starts == Starts(text, |text|) && Boundary(text, start) && Boundary(text, end)
    ensures r == RangeOf(text, start, end)
  {
    ghost var j :| 0 <= j <= |text| && Offset(text, j) == start;
    ghost var k :| 0 <= k <= |text| && Offset(text, k) == end;
    BoundaryFound(text, j, |text|);
    BoundaryFound(text, k, |text|);
    var a := PositionOf(text, starts, start);
    var b := PositionOf(text, starts, end);
    r := Range(a, b);
  }

  method Declare(text: Source, starts: seq<nat>, tokens: seq<Token>, i: nat, start: nat, h: Header, close: nat)
    returns (c: Class)
    requires starts == Starts(text, |text|) && WellScanned(text, tokens) && i < |tokens|
    requires start == DeclarationStart(tokens, i) && h.name < |tokens| && close < |tokens|
    requires h.base.Some? ==> h.base.value < |tokens|
    ensures c == Declared(text, tokens, i, h, close)
  {
    var nameRange := FindRange(text, starts, tokens[h.name].start, tokens[h.name].end);
    var whole := FindRange(text, starts, tokens[start].start, tokens[close].end);
    var base: Option<Base> := None;
    if h.base.Some? {
      var b := tokens[h.base.value];
      var range := FindRange(text, starts, b.start, b.end);
      base := Some(Base(b.text, range));
    }
    c := Class(tokens[h.name].text, nameRange, whole, base);
  }

  /** `classified` are the clauses of the classes before `n`. */
  ghost predicate Clauses(hs: Headers, n: nat, classified: seq<nat>) {
    forall e: nat :: e in classified <==>
      exists i :: 0 <= i < n && i < |hs| && hs[i].Some? && hs[i].value.clause == Some(e)
  }

  lemma ClausesSkip(hs: Headers, n: nat, classified: seq<nat>)
    requires n < |hs| && Clauses(hs, n, classified) && (hs[n].None? || hs[n].value.clause.None?)
    ensures Clauses(hs, n + 1, classified)
  {
    forall e: nat | exists i :: 0 <= i < n + 1 && i < |hs| && hs[i].Some? && hs[i].value.clause == Some(e)
      ensures e in classified
    {
      var i :| 0 <= i < n + 1 && i < |hs| && hs[i].Some? && hs[i].value.clause == Some(e);
      assert i < n;
    }
  }

  lemma ClausesGrow(hs: Headers, n: nat, classified: seq<nat>, clause: nat)
    requires n < |hs| && Clauses(hs, n, classified) && hs[n].Some? && hs[n].value.clause == Some(clause)
    ensures Clauses(hs, n + 1, classified + [clause])
  {
    forall e: nat | exists i :: 0 <= i < n + 1 && i < |hs| && hs[i].Some? && hs[i].value.clause == Some(e)
      ensures e in classified + [clause]
    {
      var i :| 0 <= i < n + 1 && i < |hs| && hs[i].Some? && hs[i].value.clause == Some(e);
      assert i < n ==> e in classified;
    }
  }

  method ClassifyToken(text: Source, tokens: seq<Token>, depths: seq<nat>, i: nat)
    returns (h: Option<Header>, start: nat)
    requires i < |tokens| == |depths| && ClassToken(tokens[i])
    ensures h == HeaderOf(text, tokens, depths, i) && start == DeclarationStart(tokens, i)
  {
    start := FindDeclarationStart(tokens, i);
    h := HeaderAt(text, tokens, i);
    if h.None? { return; }
    if depths[i] != 0 || !GapsAreTrivia(text, tokens, start, i) || !DeclarationBoundary(text, tokens, start) {
      h := None;
    }
  }

  /** What the loop over the tokens has gathered. */
  datatype Parsing = Parsing(classes: seq<Class>, complete: bool, classified: seq<nat>)

  ghost predicate Gathered(tokens: seq<Token>, hs: Headers, t: Table, uncertain: bool, n: nat, p: Parsing)
    requires n <= |tokens| == |hs| == |t|
  {
    && p.classes == Pick(t, n)
    && (p.complete <==> !uncertain && AllSupported(tokens, hs, n))
    && Clauses(hs, n, p.classified)
  }

  lemma GatheredSkips(tokens: seq<Token>, hs: Headers, t: Table, uncertain: bool, n: nat, p: Parsing)
    requires n < |tokens| == |hs| == |t| && Gathered(tokens, hs, t, uncertain, n, p)
    requires hs[n].None? && t[n].None?
    ensures Gathered(tokens, hs, t, uncertain, n + 1, if ClassToken(tokens[n]) then p.(complete := false) else p)
  {
    ClausesSkip(hs, n, p.classified);
  }

  lemma GatheredGrows(tokens: seq<Token>, hs: Headers, t: Table, uncertain: bool, n: nat, p: Parsing, c: Class)
    requires n < |tokens| == |hs| == |t| && Gathered(tokens, hs, t, uncertain, n, p)
    requires hs[n].Some? && t[n] == Some(c)
    ensures Gathered(tokens, hs, t, uncertain, n + 1,
                     Parsing(p.classes + [c], p.complete,
                             if hs[n].value.clause.Some? then p.classified + [hs[n].value.clause.value]
                             else p.classified))
  {
    if hs[n].value.clause.Some? {
      ClausesGrow(hs, n, p.classified, hs[n].value.clause.value);
    } else {
      ClausesSkip(hs, n, p.classified);
    }
  }

  lemma GatheredAll(tokens: seq<Token>, hs: Headers, t: Table, uncertain: bool, p: Parsing)
    requires |tokens| == |hs| == |t| && Gathered(tokens, hs, t, uncertain, |tokens|, p)
    ensures p.classes == Pick(t, |t|)
    ensures !uncertain && FullyClassified(tokens, hs) <==>
      p.complete && !exists e :: 0 <= e < |tokens| && ExtendsToken(tokens[e]) && e !in p.classified
  {
    assert forall e :: 0 <= e < |tokens| ==> (e in p.classified <==> Classifies(hs, e));
  }

  method ParseScannedClassHeritage(uri: string, text: Source, tokens: seq<Token>, uncertain: bool)
    returns (r: Option<Heritage>)
    requires WellScanned(text, tokens)
    ensures r == HeritageOf(uri, text, tokens, uncertain)
  {
    var structure := DelimiterStructure(tokens);
    if structure.None? { return None; }
    var s := structure.value;
    StructureIsUsable(text, tokens);
    ghost var hs := HeadersOf(text, tokens, s.depths);
    ghost var t := TableOf(text, tokens, s.closes, hs);
    var p := GatherClasses(text, tokens, s, uncertain, hs, t);
    GatheredAll(tokens, hs, t, uncertain, p);
    var complete := p.complete;
    if exists e :: 0 <= e < |tokens| && ExtendsToken(tokens[e]) && e !in p.classified { complete := false; }
    r := Some(Heritage(uri, p.classes, complete));
  }

  method GatherClasses(text: Source, tokens: seq<Token>, s: Structure, uncertain: bool, ghost hs: Headers,
                       ghost t: Table)
    returns (p: Parsing)
    requires WellScanned(text, tokens) && |s.depths| == |tokens|
    requires hs == HeadersOf(text, tokens, s.depths) && Usable(tokens, s.closes, hs)
    requires t == TableOf(text, tokens, s.closes, hs)
    ensures Gathered(tokens, hs, t, uncertain, |tokens|, p)
  {
    var starts := LineStarts(text);
    p := Parsing([], !uncertain, []);
    for i := 0 to |tokens|
      invariant Gathered(tokens, hs, t, uncertain, i, p)
    {
      if !ClassToken(tokens[i]) {
        GatheredSkips(tokens, hs, t, uncertain, i, p);
        continue;
      }
      var h, c := ParseClass(text, starts, tokens, s, i, hs);
      if h.None? {
        GatheredSkips(tokens, hs, t, uncertain, i, p);
        p := p.(complete := false);
        continue;
      }
      assert t[i] == Some(c);
      GatheredGrows(tokens, hs, t, uncertain, i, p, c);
      p := Parsing(p.classes + [c], p.complete,
                   if h.value.clause.Some? then p.classified + [h.value.clause.value] else p.classified);
    }
  }

  /** The class at a class token; `c` has no meaning when the form is not supported. */
  method ParseClass(text: Source, starts: seq<nat>, tokens: seq<Token>, s: Structure, i: nat, ghost hs: Headers)
    returns (h: Option<Header>, c: Class)
    requires starts == Starts(text, |text|) && WellScanned(text, tokens) && |s.depths| == |tokens|
    requires i < |tokens| && ClassToken(tokens[i])
    requires hs == HeadersOf(text, tokens, s.depths) && Usable(tokens, s.closes, hs)
    ensures h == hs[i] && (h.Some? ==> c == ClassOf(text, tokens, s.closes, hs, i))
  {
    var start;
    h, start := ClassifyToken(text, tokens, s.depths, i);
    if h.None? {
      c := Class("", Range(Position(0, 0), Position(0, 0)), Range(Position(0, 0), Position(0, 0)), None);
      return;
    }
    assert hs[i] == h;
    c := Declare(text, starts, tokens, i, start, h.value, s.closes[h.value.body].value);
  }
}
