/** Tokens and the matching of their delimiters, by a stack and by a reference. */
module Delimiters {
  import opened Options

  datatype TokenKind = Identifier | Punctuation | StringLiteral

  /** `start` and `end` are byte offsets. */
  datatype Token = Token(text: string, kind: TokenKind, start: nat, end: nat)

  predicate Opens(t: Token) { t.kind == Punctuation && (t.text == "{" || t.text == "(" || t.text == "[") }

  predicate Shuts(t: Token) { t.kind == Punctuation && (t.text == "}" || t.text == ")" || t.text == "]") }

  predicate Pair(open: Token, close: Token) {
    || (open.text == "{" && close.text == "}")
    || (open.text == "(" && close.text == ")")
    || (open.text == "[" && close.text == "]")
  }

  // ----- The reference: a well-nested matching -----

  type Matching = seq<Option<nat>>

  predicate MatchesAt(tokens: seq<Token>, m: Matching, i: nat)
    requires |m| == |tokens| && i < |tokens|
  {
    if Opens(tokens[i]) then
      m[i].Some? && i < m[i].value < |tokens| && Shuts(tokens[m[i].value]) && Pair(tokens[i], tokens[m[i].value])
    else m[i].None?
  }

  /** Two pairs are nested or apart. */
  predicate Uncrossed(m: Matching, i: nat, k: nat)
    requires i < k < |m|
  {
    m[i].Some? && m[k].Some? ==> m[k].value < m[i].value || m[i].value < k
  }

  ghost predicate ShutByOne(m: Matching, j: nat) {
    exists i :: 0 <= i < |m| && m[i] == Some(j)
  }

  ghost predicate WellNested(tokens: seq<Token>, m: Matching) {
    && |m| == |tokens|
    && (forall i: nat :: i < |tokens| ==> MatchesAt(tokens, m, i))
    && (forall j: nat :: j < |tokens| && Shuts(tokens[j]) ==> ShutByOne(m, j))
    && (forall i: nat, k: nat :: i < k < |m| ==> Uncrossed(m, i, k))
  }

  /** The open delimiters before `n` that are shut at `n` or later. */
  function Enclosing(m: Matching, n: nat): set<nat>
    requires n <= |m|
  {
    set k: nat | k < n && m[k].Some? && m[k].value >= n
  }

  // ----- The scan -----

  datatype Scan = Scan(stack: seq<nat>, depths: seq<nat>, closes: Matching)

  function Nothing(tokens: seq<Token>): Scan {
    Scan([], [], seq(|tokens|, _ => None))
  }

  predicate Shaped(tokens: seq<Token>, s: Scan, n: nat) {
    && |s.closes| == |tokens| && |s.depths| == n <= |tokens|
    && forall i :: 0 <= i < |s.stack| ==> s.stack[i] < n
  }

  function Step(tokens: seq<Token>, s: Scan, n: nat): (r: Option<Scan>)
    requires Shaped(tokens, s, n) && n < |tokens|
    ensures r.Some? ==> Shaped(tokens, r.value, n + 1)
  {
    var depths := s.depths + [|s.stack|];
    if Opens(tokens[n]) then Some(Scan(s.stack + [n], depths, s.closes))
    else if Shuts(tokens[n]) then
      if s.stack == [] || !Pair(tokens[s.stack[|s.stack| - 1]], tokens[n]) then None
      else Some(Scan(s.stack[..|s.stack| - 1], depths, s.closes[s.stack[|s.stack| - 1] := Some(n)]))
    else Some(s.(depths := depths))
  }

  function ScanTo(tokens: seq<Token>, n: nat): (r: Option<Scan>)
    requires n <= |tokens|
    ensures r.Some? ==> Shaped(tokens, r.value, n)
  {
    if n == 0 then Some(Nothing(tokens))
    else
      var s := ScanTo(tokens, n - 1);
      if s.None? then None else Step(tokens, s.value, n - 1)
  }

  datatype Structure = Structure(depths: seq<nat>, closes: Matching)

  function StructureOf(tokens: seq<Token>): Option<Structure> {
    var s := ScanTo(tokens, |tokens|);
    if s.None? || s.value.stack != [] then None else Some(Structure(s.value.depths, s.value.closes))
  }

  method DelimiterStructure(tokens: seq<Token>) returns (r: Option<Structure>)
    ensures r == StructureOf(tokens)
  {
    var stack: seq<nat> := [];
    var depths: seq<nat> := [];
    var closes: Matching := seq(|tokens|, _ => None);
    for n := 0 to |tokens|
      invariant ScanTo(tokens, n) == Some(Scan(stack, depths, closes))
    {
      var t := tokens[n];
      depths := depths + [|stack|];
      if Opens(t) {
        stack := stack + [n];
      } else if Shuts(t) {
        if stack == [] {
          ScanStaysOut(tokens, n + 1, |tokens|);
          return None;
        }
        var open := stack[|stack| - 1];
        if !Pair(tokens[open], t) {
          ScanStaysOut(tokens, n + 1, |tokens|);
          return None;
        }
        stack := stack[..|stack| - 1];
        closes := closes[open := Some(n)];
      }
    }
    r := if stack == [] then Some(Structure(depths, closes)) else None;
  }

  lemma {:induction false} ScanStaysOut(tokens: seq<Token>, m: nat, n: nat)
    requires m <= n <= |tokens| && ScanTo(tokens, m).None?
    ensures ScanTo(tokens, n).None?
  {
    if m < n { ScanStaysOut(tokens, m, n - 1); }
  }

  // ----- A scan that succeeds found a well-nested matching -----

  predicate Increasing(stack: seq<nat>) {
    forall i, j :: 0 <= i < j < |stack| ==> stack[i] < stack[j]
  }

  predicate FoundAt(tokens: seq<Token>, s: Scan, n: nat, i: nat)
    requires |s.closes| == |tokens| && i < |tokens|
  {
    && (s.closes[i].Some? ==>
          && i < s.closes[i].value < n <= |tokens| && Opens(tokens[i]) && Shuts(tokens[s.closes[i].value])
          && Pair(tokens[i], tokens[s.closes[i].value]))
    && (Opens(tokens[i]) && i < n ==> s.closes[i].Some? || i in s.stack)
  }

  predicate OpenAt(tokens: seq<Token>, s: Scan, k: nat) {
    k < |tokens| && k < |s.closes| && Opens(tokens[k]) && s.closes[k].None?
  }

  /** No pair closed so far has `k` between its ends. */
  predicate Apart(m: Matching, i: nat, k: nat)
    requires i < |m|
  {
    m[i].Some? ==> m[i].value < k || k < i
  }

  ghost predicate Found(tokens: seq<Token>, s: Scan, n: nat) {
    && Shaped(tokens, s, n) && Increasing(s.stack)
    && (forall i: nat :: i < |tokens| ==> FoundAt(tokens, s, n, i))
    && (forall k :: k in s.stack ==> OpenAt(tokens, s, k))
    && (forall j: nat :: j < n && Shuts(tokens[j]) ==> ShutByOne(s.closes, j))
    && (forall i: nat, k: nat :: i < k < |s.closes| ==> Uncrossed(s.closes, i, k))
    && (forall i: nat, k: nat :: i < |s.closes| && k in s.stack ==> Apart(s.closes, i, k))
  }

  lemma OpenKeepsFound(tokens: seq<Token>, s: Scan, n: nat)
    requires Found(tokens, s, n) && n < |tokens| && Opens(tokens[n])
    ensures Found(tokens, Step(tokens, s, n).value, n + 1)
  {
    var r, next := Step(tokens, s, n).value, n + 1;
    assert FoundAt(tokens, s, n, n);
    forall i: nat | i < |tokens| ensures FoundAt(tokens, r, next, i) { assert FoundAt(tokens, s, n, i); }
    forall k | k in r.stack ensures OpenAt(tokens, r, k) {
      if k in s.stack { assert OpenAt(tokens, s, k); }
    }
    forall i: nat, k: nat | i < |r.closes| && k in r.stack ensures Apart(r.closes, i, k) {
      assert FoundAt(tokens, s, n, i);
      if k in s.stack { assert Apart(s.closes, i, k); }
    }
  }

  lemma OtherKeepsFound(tokens: seq<Token>, s: Scan, n: nat)
    requires Found(tokens, s, n) && n < |tokens| && !Opens(tokens[n]) && !Shuts(tokens[n])
    ensures Found(tokens, Step(tokens, s, n).value, n + 1)
  {
    var r, next := Step(tokens, s, n).value, n + 1;
    forall i: nat | i < |tokens| ensures FoundAt(tokens, r, next, i) { assert FoundAt(tokens, s, n, i); }
    forall k | k in r.stack ensures OpenAt(tokens, r, k) { assert OpenAt(tokens, s, k); }
  }

  lemma ShutKeepsFound(tokens: seq<Token>, s: Scan, n: nat, top: nat)
    requires Found(tokens, s, n) && n < |tokens| && Shuts(tokens[n]) && Step(tokens, s, n).Some?
    requires top == s.stack[|s.stack| - 1]
    ensures Found(tokens, Step(tokens, s, n).value, n + 1)
  {
    var r, next := Step(tokens, s, n).value, n + 1;
    assert top in s.stack && OpenAt(tokens, s, top);
    forall i: nat | i < |tokens| ensures FoundAt(tokens, r, next, i) {
      assert FoundAt(tokens, s, n, i);
      if i in s.stack && i != top { StackWithoutTop(s.stack, i); }
    }
    forall k | k in r.stack ensures OpenAt(tokens, r, k) && k in s.stack && k < top {
      assert k in s.stack && OpenAt(tokens, s, k);
    }
    forall j: nat | j < n + 1 && Shuts(tokens[j]) ensures ShutByOne(r.closes, j) {
      ShutStays(s.closes, top, n, j);
    }
    forall i: nat, k: nat | i < k < |r.closes| ensures Uncrossed(r.closes, i, k) {
      assert Uncrossed(s.closes, i, k) && FoundAt(tokens, s, n, i) && FoundAt(tokens, s, n, k);
      assert Apart(s.closes, i, top) && Apart(s.closes, k, top);
    }
    forall i: nat, k: nat | i < |r.closes| && k in r.stack ensures Apart(r.closes, i, k) {
      assert Apart(s.closes, i, k);
    }
  }

  lemma StackWithoutTop(stack: seq<nat>, i: nat)
    requires stack != [] && i in stack && i != stack[|stack| - 1]
    ensures i in stack[..|stack| - 1]
  {
    var k :| 0 <= k < |stack| && stack[k] == i;
    assert stack[..|stack| - 1][k] == i;
  }

  lemma ShutStays(m: Matching, top: nat, n: nat, j: nat)
    requires top < |m| && m[top].None? && (j == n || ShutByOne(m, j))
    ensures ShutByOne(m[top := Some(n)], j)
  {
    var after := m[top := Some(n)];
    if j == n {
      assert after[top] == Some(j);
    } else {
      var i :| 0 <= i < |m| && m[i] == Some(j);
      assert after[i] == Some(j);
    }
  }

  lemma NothingIsFound(tokens: seq<Token>)
    ensures Found(tokens, Nothing(tokens), 0)
  {
  }

  lemma {:induction false} ScanIsFound(tokens: seq<Token>, n: nat)
    requires n <= |tokens| && ScanTo(tokens, n).Some?
    ensures Found(tokens, ScanTo(tokens, n).value, n)
  {
    if n == 0 {
      NothingIsFound(tokens);
    } else {
      ScanIsFound(tokens, n - 1);
      var s := ScanTo(tokens, n - 1).value;
      if Opens(tokens[n - 1]) {
        OpenKeepsFound(tokens, s, n - 1);
      } else if Shuts(tokens[n - 1]) {
        ShutKeepsFound(tokens, s, n - 1, s.stack[|s.stack| - 1]);
      } else {
        OtherKeepsFound(tokens, s, n - 1);
      }
    }
  }

  lemma StructureIsWellNested(tokens: seq<Token>)
    requires StructureOf(tokens).Some?
    ensures WellNested(tokens, StructureOf(tokens).value.closes)
  {
    ScanIsFound(tokens, |tokens|);
    var s := ScanTo(tokens, |tokens|).value;
    forall i: nat | i < |tokens| ensures MatchesAt(tokens, s.closes, i) { assert FoundAt(tokens, s, |tokens|, i); }
  }

  // ----- A well-nested matching is what the scan finds -----

  /** Half-way, the scan of a text with matching `m` has closed the pairs of `m` so far. */
  ghost predicate Follows(m: Matching, s: Scan, n: nat) {
    && |s.closes| == |m| && |s.depths| == n <= |m| && Increasing(s.stack)
    && (forall k :: k in s.stack <==> k in Enclosing(m, n))
    && (forall k :: 0 <= k < |m| ==> s.closes[k] == if m[k].Some? && m[k].value < n then m[k] else None)
    && (forall i :: 0 <= i < n ==> s.depths[i] == |Enclosing(m, i)|)
  }

  lemma {:induction false} StackSize(stack: seq<nat>, s: set<nat>)
    requires Increasing(stack) && forall k :: k in stack <==> k in s
    ensures |stack| == |s|
  {
    if stack == [] {
      assert s == {};
    } else {
      var last := stack[|stack| - 1];
      var rest := stack[..|stack| - 1];
      assert last in stack && last in s;
      forall k ensures k in rest <==> k in s - {last} {
        if k in s - {last} { StackWithoutTop(stack, k); }
        if k in rest { assert k in stack; }
      }
      StackSize(rest, s - {last});
    }
  }

  /** The delimiter shut at `n` is on top of the stack. */
  lemma TopIsOpener(tokens: seq<Token>, m: Matching, s: Scan, n: nat) returns (k: nat)
    requires WellNested(tokens, m) && Shaped(tokens, s, n) && Follows(m, s, n) && n < |tokens| && Shuts(tokens[n])
    ensures s.stack != [] && k == s.stack[|s.stack| - 1] && m[k] == Some(n) && Pair(tokens[k], tokens[n])
  {
    assert ShutByOne(m, n);
    k :| 0 <= k < |m| && m[k] == Some(n);
    assert MatchesAt(tokens, m, k);
    assert k in s.stack;
    var top := s.stack[|s.stack| - 1];
    assert top in s.stack && top in Enclosing(m, n);
    var i :| 0 <= i < |s.stack| && s.stack[i] == k;
    assert k < top ==> Uncrossed(m, k, top);
  }

  lemma DepthFollows(m: Matching, s: Scan, n: nat)
    requires Follows(m, s, n) && n < |m|
    ensures forall i :: 0 <= i < n + 1 ==> (s.depths + [|s.stack|])[i] == |Enclosing(m, i)|
  {
    StackSize(s.stack, Enclosing(m, n));
  }

  lemma OpenFollows(tokens: seq<Token>, m: Matching, s: Scan, n: nat)
    requires WellNested(tokens, m) && Shaped(tokens, s, n) && Follows(m, s, n) && n < |tokens| && Opens(tokens[n])
    ensures Follows(m, Step(tokens, s, n).value, n + 1)
  {
    var r := Step(tokens, s, n).value;
    DepthFollows(m, s, n);
    assert MatchesAt(tokens, m, n);
    forall k: nat | k < |m| ensures m[k] != Some(n) { assert MatchesAt(tokens, m, k); }
    forall k ensures k in r.stack <==> k in Enclosing(m, n + 1) { EnclosingNext(tokens, m, s, n, k); }
    forall k | 0 <= k < |m| ensures r.closes[k] == if m[k].Some? && m[k].value < n + 1 then m[k] else None {
      assert MatchesAt(tokens, m, k);
    }
  }

  lemma EnclosingNext(tokens: seq<Token>, m: Matching, s: Scan, n: nat, k: nat)
    requires WellNested(tokens, m) && Follows(m, s, n) && n < |tokens|
    ensures k in Enclosing(m, n + 1) <==>
      (k in s.stack && m[k] != Some(n)) || (k == n && Opens(tokens[n]))
  {
    assert MatchesAt(tokens, m, n);
    if k < n { assert MatchesAt(tokens, m, k); }
  }

  lemma ShutFollows(tokens: seq<Token>, m: Matching, s: Scan, n: nat)
    requires WellNested(tokens, m) && Shaped(tokens, s, n) && Follows(m, s, n) && n < |tokens| && Shuts(tokens[n])
    ensures Step(tokens, s, n).Some? && Follows(m, Step(tokens, s, n).value, n + 1)
  {
    var top := TopIsOpener(tokens, m, s, n);
    var r := Step(tokens, s, n).value;
    DepthFollows(m, s, n);
    forall k: nat | k < |m| && m[k] == Some(n) ensures k == top { OneOpener(m, k, top, n, tokens); }
    forall k ensures k in r.stack <==> k in Enclosing(m, n + 1) {
      EnclosingNext(tokens, m, s, n, k);
      StackPops(s.stack, k);
    }
  }

  lemma OneOpener(m: Matching, i: nat, k: nat, n: nat, tokens: seq<Token>)
    requires WellNested(tokens, m) && i < |m| && k < |m| && m[i] == Some(n) && m[k] == Some(n)
    ensures i == k
  {
    assert MatchesAt(tokens, m, i) && MatchesAt(tokens, m, k);
    assert i < k ==> Uncrossed(m, i, k);
    assert k < i ==> Uncrossed(m, k, i);
  }

  lemma StackPops(stack: seq<nat>, k: nat)
    requires stack != [] && Increasing(stack)
    ensures k in stack[..|stack| - 1] <==> k in stack && k != stack[|stack| - 1]
  {
    if k in stack && k != stack[|stack| - 1] { StackWithoutTop(stack, k); }
  }

  lemma OtherFollows(tokens: seq<Token>, m: Matching, s: Scan, n: nat)
    requires WellNested(tokens, m) && Shaped(tokens, s, n) && Follows(m, s, n) && n < |tokens|
    requires !Opens(tokens[n]) && !Shuts(tokens[n])
    ensures Follows(m, Step(tokens, s, n).value, n + 1)
  {
    var r := Step(tokens, s, n).value;
    DepthFollows(m, s, n);
    forall k: nat | k < |m| ensures m[k] != Some(n) { assert MatchesAt(tokens, m, k); }
    forall k ensures k in r.stack <==> k in Enclosing(m, n + 1) { EnclosingNext(tokens, m, s, n, k); }
  }

  lemma {:induction false} ScanFollows(tokens: seq<Token>, m: Matching, n: nat)
    requires WellNested(tokens, m) && n <= |tokens|
    ensures ScanTo(tokens, n).Some? && Follows(m, ScanTo(tokens, n).value, n)
  {
    if n == 0 {
      forall k | 0 <= k < |m| ensures m[k].Some? ==> m[k].value >= 0 {}
    } else {
      ScanFollows(tokens, m, n - 1);
      var s := ScanTo(tokens, n - 1).value;
      if Opens(tokens[n - 1]) {
        OpenFollows(tokens, m, s, n - 1);
      } else if Shuts(tokens[n - 1]) {
        ShutFollows(tokens, m, s, n - 1);
      } else {
        OtherFollows(tokens, m, s, n - 1);
      }
    }
  }

  /** The scan succeeds exactly on the token streams with a well-nested matching; it finds
      that matching, the only one, and each token's depth is the number of its pairs. */
  lemma DelimitersMatchExactly(tokens: seq<Token>, m: Matching)
    ensures WellNested(tokens, m) <==> StructureOf(tokens).Some? && StructureOf(tokens).value.closes == m
    ensures WellNested(tokens, m) ==>
      && |StructureOf(tokens).value.depths| == |tokens|
      && forall i :: 0 <= i < |tokens| ==> StructureOf(tokens).value.depths[i] == |Enclosing(m, i)|
  {
    if WellNested(tokens, m) {
      ScanFollows(tokens, m, |tokens|);
      var s := ScanTo(tokens, |tokens|).value;
      forall k: nat | k < |m| ensures k !in s.stack && s.closes[k] == m[k] { assert MatchesAt(tokens, m, k); }
      StackSize(s.stack, {});
    }
    if StructureOf(tokens).Some? && StructureOf(tokens).value.closes == m { StructureIsWellNested(tokens); }
  }
}
