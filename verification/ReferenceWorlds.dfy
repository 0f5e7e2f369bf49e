/** Worlds that resolutions leave open. */
module ReferenceWorlds {
  // A world settles where every binding's source lies, within what its resolution leaves
  // open. A coherent world is one a program can have.

  import opened Options
  import opened RelativeSources
  import opened ReferenceBindings
  import opened ReferenceProver

  // ----- Worlds -----

  /** Where the source of `b` may lie. */
  predicate Plausible(b: Binding, source: Option<string>) {
    match b.resolution
    case Unique => source == b.source
    case External => source.None?
    case Ambiguous =>
      source.Some? ==> Candidates(b.uri, b.specifier).Some? && source.value in Candidates(b.uri, b.specifier).value
    case _ => source.Some? ==> Open(b)
  }

  predicate World(q: Question, w: Sources) {
    |w| == |q.bindings| && forall i: nat :: i < |q.bindings| ==> Plausible(q.bindings[i], w[i])
  }

  /** Two re-exports of one name. */
  predicate Twins(q: Question, i: nat, j: nat) {
    && i < |q.bindings| && j < |q.bindings|
    && q.bindings[i].kind == ReExport && q.bindings[j].kind == ReExport
    && Local(q.bindings[i]) == Local(q.bindings[j])
  }

  /** No re-export has the name of a declaration. */
  predicate OnceDeclared(q: Question) {
    && Origin(q) !in q.independent
    && forall i: nat :: i < |q.bindings| && q.bindings[i].kind == ReExport ==>
         Local(q.bindings[i]) != Origin(q) && Local(q.bindings[i]) !in q.independent
  }

  /** A name is exported once: not both by a declaration and a re-export, and two
      re-exports of one name import the same thing. */
  ghost predicate Coherent(q: Question, w: Sources)
    requires |w| == |q.bindings|
  {
    OnceDeclared(q) && forall i: nat, j: nat :: Twins(q, i, j) ==> Imports(q, w, i) == Imports(q, w, j)
  }

  /** An unresolved source that the first loop does not consider, for its names. */
  predicate PassedOver(q: Question, i: nat) {
    i < |q.bindings| && Open(q.bindings[i]) && !NameFits(q, q.bindings[i])
  }

  /** No binding that is passed over leads to the declaration. */
  ghost predicate Guarded(q: Question, w: Sources)
    requires |w| == |q.bindings|
  {
    forall i: nat :: PassedOver(q, i) ==> !Refers(q, w, i)
  }

  // ----- The first loop covers every world -----

  lemma ImporterIsPossible(q: Question, possible: set<nat>, w: Sources, i: nat)
    requires World(q, w) && Closed(q, possible) && i < |q.bindings| && !PassedOver(q, i)
    requires Imports(q, w, i).Some? && Imports(q, w, i).value in PossibleExports(q, possible)
    ensures i in possible
  {
    var b := q.bindings[i];
    assert Plausible(b, w[i]);
    if b.resolution == Unique {
      assert Fed(b, PossibleExports(q, possible));
    } else if b.resolution == Ambiguous {
      var cs := Candidates(b.uri, b.specifier).value;
      var k :| 0 <= k < |cs| && cs[k] == w[i].value;
      assert Site(cs[k], b.importedName) in PossibleExports(q, possible);
      assert Fed(b, PossibleExports(q, possible));
    } else {
      assert i in Seeds(q);
    }
  }

  lemma {:induction false} ChainsArePossible(q: Question, possible: set<nat>, w: Sources, chain: seq<nat>, k: nat)
    requires World(q, w) && Guarded(q, w) && Closed(q, possible) && Chain(q, w, chain) && k < |chain|
    ensures chain[k] in possible
  {
    if k > 0 {
      ChainsArePossible(q, possible, w, chain, k - 1);
      assert Link(q, w, chain, k);
    }
    PrefixRefers(q, w, chain, k);
    ImporterIsPossible(q, possible, w, chain[k]);
  }

  lemma PrefixRefers(q: Question, w: Sources, chain: seq<nat>, k: nat)
    requires |w| == |q.bindings| && Chain(q, w, chain) && k < |chain|
    ensures Refers(q, w, chain[k])
  {
    var front := chain[..k + 1];
    forall j | 1 <= j < |front| ensures Link(q, w, front, j) { assert Link(q, w, chain, j); }
    assert Chain(q, w, front) && Last(front) == chain[k];
  }

  /** In every world, a binding that leads to the declaration is possible. */
  lemma ReferringIsPossible(q: Question, possible: set<nat>, w: Sources, i: nat)
    requires World(q, w) && Guarded(q, w) && Closed(q, possible) && Refers(q, w, i)
    ensures i in possible
  {
    var chain :| Chain(q, w, chain) && Last(chain) == i;
    ChainsArePossible(q, possible, w, chain, |chain| - 1);
  }

  /** The first loop covers a world exactly when no binding it passes over leads to the
      declaration there. */
  lemma CoversExactlyWhenGuarded(q: Question, possible: set<nat>, w: Sources)
    requires World(q, w) && LeastClosed(q, possible)
    ensures (forall i: nat :: Refers(q, w, i) ==> i in possible) <==> Guarded(q, w)
  {
    if Guarded(q, w) {
      forall i: nat | Refers(q, w, i) ensures i in possible { ReferringIsPossible(q, possible, w, i); }
    }
    forall i: nat | PassedOver(q, i) ensures i !in possible { PassedOverIsNotPossible(q, possible, i); }
  }

  lemma PassedOverIsNotPossible(q: Question, possible: set<nat>, i: nat)
    requires LeastClosed(q, possible) && PassedOver(q, i)
    ensures i !in possible
  {
    var fewer := possible - {i};
    forall k: nat | k < |q.bindings| && Fed(q.bindings[k], PossibleExports(q, fewer)) ensures k in fewer {
      FedStaysInside(q, fewer, possible, k);
    }
    assert Closed(q, fewer);
  }

  /** A referring binding imports the declaration or what a referring re-export exports. */
  lemma ReferringImports(q: Question, w: Sources, i: nat) returns (via: Option<nat>)
    requires |w| == |q.bindings| && Refers(q, w, i)
    ensures i < |q.bindings| && Imports(q, w, i).Some?
    ensures via.None? ==> Imports(q, w, i) == Some(Origin(q))
    ensures via.Some? ==>
      && via.value < |q.bindings| && q.bindings[via.value].kind == ReExport
      && Imports(q, w, i) == Some(Local(q.bindings[via.value])) && Refers(q, w, via.value)
  {
    var chain :| Chain(q, w, chain) && Last(chain) == i;
    var n := |chain|;
    if n == 1 { return None; }
    assert Link(q, w, chain, n - 1);
    PrefixRefers(q, w, chain, n - 2);
    return Some(chain[n - 2]);
  }
}
