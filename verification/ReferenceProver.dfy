/** The reference prover: its two loops over bindings. */
module ReferenceProver {
  // Which bindings may, do, and do not lead back to one declaration? The first loop
  // over-approximates; the second classifies. A table from document to names is the set of
  // its (document, name) pairs, a `Site`.

  import opened Options
  import opened RelativeSources
  import opened ReferenceBindings

  datatype Site = Site(uri: string, name: string)

  datatype Occurrence = Occurrence(uri: string, name: string, qualified: Option<bool>, qualifier: Option<string>)

  /** The declaration stands in `uri` under the name `declared` and is exported as
      `exported`; `independent` are the exports of other declarations. */
  datatype Question = Question(bindings: seq<Binding>, occurrences: seq<Occurrence>, independent: set<Site>,
                               uri: string, declared: string, exported: string, limit: nat)

  function Origin(q: Question): Site { Site(q.uri, q.exported) }

  function Local(b: Binding): Site { Site(b.uri, b.localName) }

  /** What the binding imports from its source. */
  function Imported(q: Question, i: nat): Site
    requires i < |q.bindings| && q.bindings[i].source.Some?
  {
    Site(q.bindings[i].source.value, q.bindings[i].importedName)
  }

  /** What the re-exports among `s` export. */
  function Exports(bs: seq<Binding>, s: set<nat>): set<Site> {
    set i: nat | i in s && i < |bs| && bs[i].kind == ReExport :: Local(bs[i])
  }

  // ----- The first loop: possible bindings -----

  /** A source nobody resolved and that is neither relative nor an SDK module. */
  predicate Open(b: Binding) {
    && (b.resolution == Unsupported || b.resolution == Unresolved)
    && !SdkModule(b.specifier)
    && Candidates(b.uri, b.specifier).None?
  }

  predicate NameFits(q: Question, b: Binding) {
    q.exported != "default" || b.importedName == q.exported || b.localName == q.declared
  }

  function Seeds(q: Question): set<nat> {
    set i: nat | i < |q.bindings| && Open(q.bindings[i]) && NameFits(q, q.bindings[i])
  }

  /** One of the documents the binding may come from exports what it imports. */
  predicate Fed(b: Binding, exports: set<Site>) {
    match b.resolution
    case Unique => b.source.Some? && Site(b.source.value, b.importedName) in exports
    case Ambiguous =>
      var cs := Candidates(b.uri, b.specifier);
      cs.Some? && exists i :: 0 <= i < |cs.value| && Site(cs.value[i], b.importedName) in exports
    case _ => false
  }

  function PossibleExports(q: Question, s: set<nat>): set<Site> {
    {Origin(q)} + Exports(q.bindings, s)
  }

  predicate Closed(q: Question, s: set<nat>) {
    && Seeds(q) <= s
    && forall i: nat :: i < |q.bindings| && Fed(q.bindings[i], PossibleExports(q, s)) ==> i in s
  }

  /** The least closed set of bindings. */
  ghost predicate LeastClosed(q: Question, s: set<nat>) {
    && Closed(q, s)
    && (forall i :: i in s ==> i < |q.bindings|)
    && forall c: set<nat> :: Closed(q, c) ==> s <= c
  }

  lemma FedGrows(b: Binding, few: set<Site>, many: set<Site>)
    requires few <= many && Fed(b, few)
    ensures Fed(b, many)
  {
    if b.resolution == Ambiguous {
      var cs := Candidates(b.uri, b.specifier);
      var i :| 0 <= i < |cs.value| && Site(cs.value[i], b.importedName) in few;
      assert Site(cs.value[i], b.importedName) in many;
    }
  }

  /** What feeds on a part of a closed set belongs to it. */
  lemma FedStaysInside(q: Question, s: set<nat>, c: set<nat>, i: nat)
    requires s <= c && Closed(q, c) && i < |q.bindings| && Fed(q.bindings[i], PossibleExports(q, s))
    ensures i in c
  {
    FedGrows(q.bindings[i], PossibleExports(q, s), PossibleExports(q, c));
  }

  ghost predicate Inside(q: Question, s: set<nat>) {
    && (forall i :: i in s ==> i < |q.bindings|)
    && forall c: set<nat> :: Closed(q, c) ==> s <= c
  }

  lemma InsideGrows(q: Question, s: set<nat>, i: nat)
    requires Inside(q, s) && i < |q.bindings| && Fed(q.bindings[i], PossibleExports(q, s))
    ensures Inside(q, s + {i})
  {
    forall c: set<nat> | Closed(q, c) ensures s + {i} <= c { FedStaysInside(q, s, c, i); }
  }

  lemma InsideIsSmall(q: Question, s: set<nat>)
    requires forall i :: i in s ==> i < |q.bindings|
    ensures |s| <= |q.bindings|
  {
    Bounded(s, |q.bindings|);
  }

  lemma {:induction false} Bounded(s: set<nat>, n: nat)
    requires forall i :: i in s ==> i < n
    ensures |s| <= n
  {
    if n == 0 {
      assert s == {};
    } else {
      Bounded(s - {n - 1}, n - 1);
      assert s <= (s - {n - 1}) + {n - 1};
    }
  }

  method SeedPossible(q: Question) returns (possible: set<nat>, exports: set<Site>)
    ensures possible == Seeds(q) && exports == PossibleExports(q, possible)
  {
    possible := set i: nat | i < |q.bindings| && Open(q.bindings[i]) && NameFits(q, q.bindings[i]);
    exports := {Origin(q)};
    for i := 0 to |q.bindings|
      invariant exports == {Origin(q)} + Exports(q.bindings[..i], possible)
    {
      ExportsOfPrefix(q.bindings, possible, i);
      if i in possible && q.bindings[i].kind == ReExport { exports := exports + {Local(q.bindings[i])}; }
    }
    assert q.bindings[..|q.bindings|] == q.bindings;
  }

  lemma ExportsOfPrefix(bs: seq<Binding>, s: set<nat>, i: nat)
    requires i < |bs|
    ensures Exports(bs[..i + 1], s) ==
      Exports(bs[..i], s) + if i in s && bs[i].kind == ReExport then {Local(bs[i])} else {}
  {
    var few, many := bs[..i], bs[..i + 1];
    forall x | x in Exports(few, s) ensures x in Exports(many, s) {
      var k: nat :| k in s && k < |few| && few[k].kind == ReExport && x == Local(few[k]);
      assert many[k] == few[k];
    }
    forall x | x in Exports(many, s)
      ensures x in Exports(few, s) || (i in s && bs[i].kind == ReExport && x == Local(bs[i]))
    {
      var k: nat :| k in s && k < |many| && many[k].kind == ReExport && x == Local(many[k]);
      if k < i { assert few[k] == many[k]; }
    }
    if i in s && bs[i].kind == ReExport { assert many[i] == bs[i]; }
  }

  lemma ExportsGrow(bs: seq<Binding>, s: set<nat>, i: nat)
    requires i < |bs|
    ensures Exports(bs, s + {i}) == Exports(bs, s) + if bs[i].kind == ReExport then {Local(bs[i])} else {}
  {
  }

  /** No binding before `n` is fed by `s` from outside it. */
  predicate Quiet(q: Question, s: set<nat>, n: nat) {
    forall k: nat :: k < n && k < |q.bindings| && Fed(q.bindings[k], PossibleExports(q, s)) ==> k in s
  }

  /** A pass that started from `before` has come to `s`. */
  predicate Passing(q: Question, before: set<nat>, s: set<nat>, n: nat) {
    before <= s && (|s| > |before| || (s == before && Quiet(q, before, n)))
  }

  lemma PassAdds(q: Question, before: set<nat>, s: set<nat>, n: nat)
    requires n < |q.bindings| && Passing(q, before, s, n)
    ensures Passing(q, before, s + {n}, n + 1)
  {
    if n in s {
      assert s + {n} == s;
    } else {
      assert |s + {n}| == |s| + 1;
    }
  }

  lemma PassSkips(q: Question, before: set<nat>, s: set<nat>, n: nat)
    requires n < |q.bindings| && Passing(q, before, s, n) && !Fed(q.bindings[n], PossibleExports(q, s))
    ensures Passing(q, before, s, n + 1)
  {
  }

  lemma PossibleExportsGrow(q: Question, s: set<nat>, i: nat)
    requires i < |q.bindings|
    ensures PossibleExports(q, s + {i}) ==
      if q.bindings[i].kind == ReExport then PossibleExports(q, s) + {Local(q.bindings[i])} else PossibleExports(q, s)
  {
    ExportsGrow(q.bindings, s, i);
  }

  /** One pass over the bindings. A pass that adds nothing saw every fed binding inside. */
  method PossiblePass(q: Question, before: set<nat>, seen: set<Site>) returns (possible: set<nat>, exports: set<Site>)
    requires Inside(q, before) && seen == PossibleExports(q, before)
    ensures Inside(q, possible) && exports == PossibleExports(q, possible)
    ensures Passing(q, before, possible, |q.bindings|)
  {
    possible, exports := before, seen;
    for i := 0 to |q.bindings|
      invariant Inside(q, possible) && exports == PossibleExports(q, possible)
      invariant Passing(q, before, possible, i)
    {
      var b := q.bindings[i];
      if Fed(b, exports) {
        InsideGrows(q, possible, i);
        PossibleExportsGrow(q, possible, i);
        PassAdds(q, before, possible, i);
        possible := possible + {i};
        if b.kind == ReExport { exports := exports + {Local(b)}; }
      } else {
        PassSkips(q, before, possible, i);
      }
    }
  }

  /** The first loop ends, at the least closed set. */
  method FindPossible(q: Question) returns (possible: set<nat>)
    ensures LeastClosed(q, possible)
  {
    var exports;
    possible, exports := SeedPossible(q);
    InsideIsSmall(q, possible);
    while true
      invariant Inside(q, possible) && exports == PossibleExports(q, possible)
      invariant Seeds(q) <= possible && |possible| <= |q.bindings|
      decreases |q.bindings| - |possible|
    {
      var before := possible;
      possible, exports := PossiblePass(q, before, exports);
      InsideIsSmall(q, possible);
      if |possible| == |before| { break; }
    }
  }

  // ----- The second loop: verdicts -----

  /** The bindings recorded as leading to the declaration and as not leading there. */
  datatype Tally = Tally(proven: set<nat>, separate: set<nat>)

  datatype Verdict = Skip | Proves | Separates

  function Known(q: Question): set<string> {
    (set o | o in q.occurrences :: o.uri) + (set b | b in q.bindings :: b.uri)
    + (set s | s in q.independent :: s.uri) + {q.uri}
  }

  function ProvenExports(q: Question, t: Tally): set<Site> {
    {Origin(q)} + Exports(q.bindings, t.proven)
  }

  function SeparateExports(q: Question, t: Tally): set<Site> {
    q.independent + Exports(q.bindings, t.separate)
  }

  /** Bindings that are separate whatever else is known. */
  predicate Apart(q: Question, possible: set<nat>, i: nat)
    requires i < |q.bindings|
  {
    var b := q.bindings[i];
    || (b.resolution == External && b.terminal.Some?)
    || (b.kind == Import && b.resolution == Unresolved && Candidates(b.uri, b.specifier).Some?)
    || (b.resolution == Ambiguous && i !in possible)
    || (b.resolution == Unique && b.source.Some? && b.source.value !in Known(q))
  }

  function VerdictOn(q: Question, possible: set<nat>, t: Tally, i: nat): Verdict
    requires i < |q.bindings|
  {
    var b := q.bindings[i];
    if Apart(q, possible, i) then Separates
    else if b.resolution != Unique || b.source.None? then Skip
    else
      var site := Site(b.source.value, b.importedName);
      if (site in ProvenExports(q, t)) == (site in SeparateExports(q, t)) then Skip
      else if site in ProvenExports(q, t) then Proves
      else Separates
  }

  function Visit(q: Question, possible: set<nat>, t: Tally, i: nat): Tally
    requires i < |q.bindings|
  {
    match VerdictOn(q, possible, t, i)
    case Skip => t
    case Proves => t.(proven := t.proven + {i})
    case Separates => t.(separate := t.separate + {i})
  }

  predicate Visits(q: Question, order: seq<nat>) {
    forall k :: 0 <= k < |order| ==> order[k] < |q.bindings|
  }

  /** The tally after visiting bindings in any order, any number of times. */
  function After(q: Question, possible: set<nat>, order: seq<nat>, n: nat): Tally
    requires n <= |order| && Visits(q, order)
  {
    if n == 0 then Tally({}, {}) else Visit(q, possible, After(q, possible, order, n - 1), order[n - 1])
  }

  predicate Settled(q: Question, possible: set<nat>, t: Tally) {
    forall i: nat :: i < |q.bindings| ==> Visit(q, possible, t, i) == t
  }

  // ----- Verdicts never flip -----

  predicate Grows(s: Tally, t: Tally) {
    s.proven <= t.proven && s.separate <= t.separate
  }

  /** What a recorded verdict rests on stays true. */
  predicate Judged(q: Question, possible: set<nat>, t: Tally) {
    && (forall i :: i in t.proven ==>
          && i < |q.bindings| && !Apart(q, possible, i)
          && q.bindings[i].resolution == Unique && q.bindings[i].source.Some?
          && Site(q.bindings[i].source.value, q.bindings[i].importedName) in ProvenExports(q, t))
    && (forall i :: i in t.separate ==>
          && i < |q.bindings|
          && (Apart(q, possible, i)
              || (q.bindings[i].resolution == Unique && q.bindings[i].source.Some?
                  && Site(q.bindings[i].source.value, q.bindings[i].importedName) in SeparateExports(q, t))))
  }

  lemma ExportsMonotone(bs: seq<Binding>, s: set<nat>, t: set<nat>)
    requires s <= t
    ensures Exports(bs, s) <= Exports(bs, t)
  {
  }

  lemma GrowthOfExports(q: Question, s: Tally, t: Tally)
    requires Grows(s, t)
    ensures ProvenExports(q, s) <= ProvenExports(q, t) && SeparateExports(q, s) <= SeparateExports(q, t)
  {
    ExportsMonotone(q.bindings, s.proven, t.proven);
    ExportsMonotone(q.bindings, s.separate, t.separate);
  }

  lemma VisitKeepsJudged(q: Question, possible: set<nat>, t: Tally, i: nat)
    requires i < |q.bindings| && Judged(q, possible, t) && t.proven !! t.separate
    ensures Judged(q, possible, Visit(q, possible, t, i)) && Grows(t, Visit(q, possible, t, i))
    ensures Visit(q, possible, t, i).proven !! Visit(q, possible, t, i).separate
  {
    GrowthOfExports(q, t, Visit(q, possible, t, i));
  }

  lemma {:induction false} RunsAreJudged(q: Question, possible: set<nat>, order: seq<nat>, n: nat)
    requires n <= |order| && Visits(q, order)
    ensures Judged(q, possible, After(q, possible, order, n))
    ensures After(q, possible, order, n).proven !! After(q, possible, order, n).separate
  {
    if n > 0 {
      RunsAreJudged(q, possible, order, n - 1);
      VisitKeepsJudged(q, possible, After(q, possible, order, n - 1), order[n - 1]);
    }
  }

  /** In any order of visits a recorded verdict is final: a binding recorded as proven is
      never recorded as separate, nor the reverse, although both tables keep growing. */
  lemma {:induction false} VerdictsNeverFlip(q: Question, possible: set<nat>, order: seq<nat>, m: nat, n: nat)
    requires m <= n <= |order| && Visits(q, order)
    ensures var s, t := After(q, possible, order, m), After(q, possible, order, n);
      && Grows(s, t)
      && (forall i :: i in s.proven ==> i !in t.separate)
      && (forall i :: i in s.separate ==> i !in t.proven)
  {
    RunsAreJudged(q, possible, order, n);
    if m < n {
      VerdictsNeverFlip(q, possible, order, m, n - 1);
      RunsAreJudged(q, possible, order, n - 1);
      VisitKeepsJudged(q, possible, After(q, possible, order, n - 1), order[n - 1]);
    }
  }

  // ----- Chains -----

  /** The documents the bindings' sources lie in, where known. */
  type Sources = seq<Option<string>>

  function UniqueSource(b: Binding): Option<string> {
    if b.resolution == Unique then b.source else None
  }

  function UniqueSources(q: Question): (w: Sources)
    ensures |w| == |q.bindings|
  {
    seq(|q.bindings|, i requires 0 <= i < |q.bindings| => UniqueSource(q.bindings[i]))
  }

  function Imports(q: Question, w: Sources, i: nat): Option<Site>
    requires i < |q.bindings| == |w|
  {
    if w[i].None? then None else Some(Site(w[i].value, q.bindings[i].importedName))
  }

  /** The first binding imports the declaration and each later one imports what the one
      before it re-exports. */
  predicate Chain(q: Question, w: Sources, chain: seq<nat>)
    requires |w| == |q.bindings|
  {
    && chain != []
    && (forall k :: 0 <= k < |chain| ==> chain[k] < |q.bindings|)
    && Imports(q, w, chain[0]) == Some(Origin(q))
    && forall k :: 1 <= k < |chain| ==> Link(q, w, chain, k)
  }

  /** Binding `k` of the chain imports what the one before it re-exports. */
  predicate Link(q: Question, w: Sources, chain: seq<nat>, k: nat)
    requires |w| == |q.bindings| && 1 <= k < |chain|
    requires forall k :: 0 <= k < |chain| ==> chain[k] < |q.bindings|
  {
    && q.bindings[chain[k - 1]].kind == ReExport
    && Imports(q, w, chain[k]) == Some(Local(q.bindings[chain[k - 1]]))
  }

  function Last(chain: seq<nat>): nat
    requires chain != []
  {
    chain[|chain| - 1]
  }

  /** The binding leads back to the declaration along `w`. */
  ghost predicate Refers(q: Question, w: Sources, i: nat)
    requires |w| == |q.bindings|
  {
    exists chain :: Chain(q, w, chain) && Last(chain) == i
  }

  lemma DirectImportRefers(q: Question, w: Sources, i: nat)
    requires i < |q.bindings| == |w| && Imports(q, w, i) == Some(Origin(q))
    ensures Refers(q, w, i)
  {
    assert Chain(q, w, [i]) && Last([i]) == i;
  }

  lemma ImportOfReExportRefers(q: Question, w: Sources, j: nat, i: nat)
    requires i < |q.bindings| == |w| && j < |q.bindings| && Refers(q, w, j)
    requires q.bindings[j].kind == ReExport && Imports(q, w, i) == Some(Local(q.bindings[j]))
    ensures Refers(q, w, i)
  {
    var chain :| Chain(q, w, chain) && Last(chain) == j;
    var longer := chain + [i];
    assert Last(longer) == i && longer[0] == chain[0];
    forall k | 1 <= k < |longer| ensures Link(q, w, longer, k) {
      if k < |chain| { assert longer[k] == chain[k] && Link(q, w, chain, k); }
      assert longer[k - 1] == chain[k - 1];
    }
    assert Chain(q, w, longer);
  }

  ghost predicate AllRefer(q: Question, w: Sources, s: set<nat>)
    requires |w| == |q.bindings|
  {
    forall i :: i in s ==> Refers(q, w, i)
  }

  lemma ProvenVisitRefers(q: Question, possible: set<nat>, t: Tally, i: nat)
    requires i < |q.bindings| && AllRefer(q, UniqueSources(q), t.proven) && VerdictOn(q, possible, t, i).Proves?
    ensures Refers(q, UniqueSources(q), i)
  {
    var w, b := UniqueSources(q), q.bindings[i];
    var site := Site(b.source.value, b.importedName);
    assert Imports(q, w, i) == Some(site);
    if site == Origin(q) {
      DirectImportRefers(q, w, i);
    } else {
      var j: nat :| j in t.proven && j < |q.bindings| && q.bindings[j].kind == ReExport && site == Local(q.bindings[j]);
      ImportOfReExportRefers(q, w, j, i);
    }
  }

  /** Every proven binding has a finite chain of unique sources and re-exports back to the
      declaration. */
  lemma {:induction false} ProvenBindingsHaveChains(q: Question, possible: set<nat>, order: seq<nat>, n: nat)
    requires n <= |order| && Visits(q, order)
    ensures AllRefer(q, UniqueSources(q), After(q, possible, order, n).proven)
  {
    if n > 0 {
      ProvenBindingsHaveChains(q, possible, order, n - 1);
      var t := After(q, possible, order, n - 1);
      if VerdictOn(q, possible, t, order[n - 1]).Proves? { ProvenVisitRefers(q, possible, t, order[n - 1]); }
    }
  }

  /** A proven binding is possible, and so is every binding on its chain. */
  lemma {:induction false} UniqueChainsArePossible(q: Question, possible: set<nat>, chain: seq<nat>, k: nat)
    requires Closed(q, possible) && Chain(q, UniqueSources(q), chain) && k < |chain|
    ensures chain[k] in possible
  {
    if k > 0 {
      UniqueChainsArePossible(q, possible, chain, k - 1);
      assert Link(q, UniqueSources(q), chain, k);
    }
    assert Imports(q, UniqueSources(q), chain[k]).Some?;
    assert Fed(q.bindings[chain[k]], PossibleExports(q, possible));
  }

  lemma ProvenBindingsArePossible(q: Question, possible: set<nat>, order: seq<nat>)
    requires Closed(q, possible) && Visits(q, order)
    ensures After(q, possible, order, |order|).proven <= possible
  {
    var t := After(q, possible, order, |order|);
    ProvenBindingsHaveChains(q, possible, order, |order|);
    forall i | i in t.proven ensures i in possible {
      assert Refers(q, UniqueSources(q), i);
      var chain :| Chain(q, UniqueSources(q), chain) && Last(chain) == i;
      UniqueChainsArePossible(q, possible, chain, |chain| - 1);
    }
  }
}
