/** Coherent worlds leave no name disputed. */
module ReferenceCoherence {
  // Whatever a chain of unique sources proves refers in every world. In a coherent world no
  // chain from something separate can reach the same name, so the order of visits is free.

  import opened Options
  import opened RelativeSources
  import opened ReferenceBindings
  import opened ReferenceProver
  import opened ReferenceAnswer
  import opened ReferenceOrder
  import opened ReferenceWorlds
  import opened ReferenceScope

  // ----- What a proving chain says -----

  lemma ProvingPrefix(q: Question, possible: set<nat>, chain: seq<nat>, k: nat)
    requires Proving(q, possible, chain) && k < |chain|
    ensures Provable(q, possible, chain[k])
  {
    var front := chain[..k + 1];
    forall j | 1 <= j < |front| ensures Follows(q, possible, front, j) { assert Follows(q, possible, chain, j); }
    assert Proving(q, possible, front) && Last(front) == chain[k];
  }

  /** A provable binding imports the declaration or what a provable re-export exports. */
  lemma ProvableImports(q: Question, possible: set<nat>, i: nat) returns (via: Option<nat>)
    requires Provable(q, possible, i)
    ensures Ordinary(q, possible, i) && Imported(q, i) !in q.independent
    ensures via.None? ==> Imported(q, i) == Origin(q)
    ensures via.Some? ==>
      && Provable(q, possible, via.value) && ReExports(q, via.value)
      && Imported(q, i) == Local(q.bindings[via.value])
  {
    var chain :| Proving(q, possible, chain) && Last(chain) == i;
    if |chain| == 1 { return None; }
    assert Follows(q, possible, chain, |chain| - 1);
    ProvingPrefix(q, possible, chain, |chain| - 2);
    return Some(chain[|chain| - 2]);
  }

  lemma ProvingIsChain(q: Question, possible: set<nat>, chain: seq<nat>)
    requires Proving(q, possible, chain)
    ensures Chain(q, UniqueSources(q), chain)
  {
    var w := UniqueSources(q);
    forall k | 0 <= k < |chain|
      ensures chain[k] < |q.bindings| && Imports(q, w, chain[k]) == Some(Imported(q, chain[k]))
    {
      if k > 0 { assert Follows(q, possible, chain, k); }
    }
    forall k | 1 <= k < |chain| ensures Link(q, w, chain, k) { assert Follows(q, possible, chain, k); }
  }

  lemma ProvableRefers(q: Question, possible: set<nat>, i: nat)
    requires Provable(q, possible, i)
    ensures Refers(q, UniqueSources(q), i)
  {
    var chain :| Proving(q, possible, chain) && Last(chain) == i;
    ProvingIsChain(q, possible, chain);
  }

  lemma ProvableIsPossible(q: Question, possible: set<nat>, i: nat)
    requires Closed(q, possible) && Provable(q, possible, i)
    ensures i in possible
  {
    var chain :| Proving(q, possible, chain) && Last(chain) == i;
    ProvingIsChain(q, possible, chain);
    UniqueChainsArePossible(q, possible, chain, |chain| - 1);
  }

  // ----- Nothing separable shares a name with something provable -----

  /** The site a provable binding imports is exported by something possible. */
  lemma ProvableSiteIsExported(q: Question, possible: set<nat>, i: nat)
    requires Closed(q, possible) && Provable(q, possible, i)
    ensures Imported(q, i) in PossibleExports(q, possible) && Imported(q, i).uri in Known(q)
  {
    var via := ProvableImports(q, possible, i);
    if via.Some? {
      ProvableIsPossible(q, possible, via.value);
      assert q.bindings[via.value] in q.bindings;
    }
  }

  lemma SeparatedIsAlone(q: Question, possible: set<nat>, w: Sources, c: nat, d: nat)
    requires World(q, w) && Closed(q, possible) && Separated(q, possible, c)
    requires c == d || Twins(q, d, c)
    requires Imports(q, w, c) == Imports(q, w, d)
    ensures !Provable(q, possible, d)
  {
    if Provable(q, possible, d) {
      ProvableImportsHere(q, possible, w, d);
      ProvableSiteIsExported(q, possible, d);
      var via := ProvableImports(q, possible, d);
      assert Plausible(q.bindings[c], w[c]);
      if q.bindings[c].resolution == Ambiguous { AmbiguousIsFed(q, possible, c, Imported(q, d)); }
    }
  }

  lemma AmbiguousIsFed(q: Question, possible: set<nat>, c: nat, s: Site)
    requires Closed(q, possible) && c < |q.bindings| && q.bindings[c].resolution == Ambiguous
    requires Plausible(q.bindings[c], Some(s.uri)) && q.bindings[c].importedName == s.name
    requires s in PossibleExports(q, possible)
    ensures c in possible
  {
    var cs := Candidates(q.bindings[c].uri, q.bindings[c].specifier).value;
    var k :| 0 <= k < |cs| && cs[k] == s.uri;
    assert Site(cs[k], q.bindings[c].importedName) in PossibleExports(q, possible);
    assert Fed(q.bindings[c], PossibleExports(q, possible));
  }

  lemma ProvableImportsHere(q: Question, possible: set<nat>, w: Sources, d: nat)
    requires World(q, w) && Provable(q, possible, d)
    ensures d < |q.bindings| && Ordinary(q, possible, d) && Imports(q, w, d) == Some(Imported(q, d))
  {
    var via := ProvableImports(q, possible, d);
    assert Plausible(q.bindings[d], w[d]);
  }

  /** In a coherent world nothing on a separating chain, and nothing that shares its name,
      is provable. */
  lemma {:induction false} SeparatingIsUnprovable(q: Question, possible: set<nat>, w: Sources, chain: seq<nat>,
                                                  k: nat, d: nat)
    requires World(q, w) && Coherent(q, w) && Closed(q, possible)
    requires Separating(q, possible, chain) && k < |chain|
    requires d == chain[k] || Twins(q, d, chain[k])
    ensures !Provable(q, possible, d)
  {
    if Provable(q, possible, d) {
      ProvableImportsHere(q, possible, w, d);
      var c := chain[k];
      assert Imports(q, w, d) == Imports(q, w, c);
      if k == 0 {
        SeparatedIsAlone(q, possible, w, c, d);
      } else {
        assert FollowsApart(q, possible, chain, k) && Plausible(q.bindings[c], w[c]);
        var via := ProvableImports(q, possible, d);
        SeparatingIsUnprovable(q, possible, w, chain, k - 1, via.value);
      }
    }
  }

  lemma SeparableIsUnprovable(q: Question, possible: set<nat>, w: Sources, c: nat, d: nat)
    requires World(q, w) && Coherent(q, w) && Closed(q, possible)
    requires Separable(q, possible, c) && (d == c || Twins(q, d, c))
    ensures !Provable(q, possible, d)
  {
    var chain :| Separating(q, possible, chain) && Last(chain) == c;
    SeparatingIsUnprovable(q, possible, w, chain, |chain| - 1, d);
  }

  /** Where a coherent world exists no name is disputed. */
  lemma CoherentIsUndisputed(q: Question, possible: set<nat>, w: Sources)
    requires World(q, w) && Coherent(q, w) && Closed(q, possible)
    ensures Undisputed(q, possible)
  {
    forall i: nat ensures !Disputed(q, possible, i) {
      if Disputed(q, possible, i) {
        var s := Imported(q, i);
        assert s !in q.independent;
        var c: nat :| ReExports(q, c) && Separable(q, possible, c) && s == Local(q.bindings[c]);
        var j: nat :| ReExports(q, j) && Provable(q, possible, j) && s == Local(q.bindings[j]);
        SeparableIsUnprovable(q, possible, w, c, j);
      }
    }
  }

  lemma CompatibleIsUndisputed(q: Question, possible: set<nat>)
    requires Compatible(q) && Closed(q, possible)
    ensures Undisputed(q, possible)
  {
    BaseHolds(q, CoherentWorlds);
    CoherentIsUndisputed(q, possible, Base(q, CoherentWorlds));
  }

  // ----- What is proven of what was reached -----

  /** A separable binding is separated by itself or imports what a separable one exports. */
  lemma SeparableImports(q: Question, possible: set<nat>, i: nat)
    requires Separable(q, possible, i) && Ordinary(q, possible, i)
    ensures SeparableSite(q, possible, Imported(q, i)) && Imported(q, i) != Origin(q)
  {
    var chain :| Separating(q, possible, chain) && Last(chain) == i;
    if |chain| > 1 {
      assert FollowsApart(q, possible, chain, |chain| - 1);
      var front := chain[..|chain| - 1];
      forall j | 1 <= j < |front| ensures FollowsApart(q, possible, front, j) {
        assert FollowsApart(q, possible, chain, j);
      }
      assert Separating(q, possible, front) && Last(front) == chain[|chain| - 2];
    }
  }

  lemma ProvableIsInseparable(q: Question, possible: set<nat>, i: nat)
    requires Undisputed(q, possible) && Provable(q, possible, i)
    ensures !Separable(q, possible, i)
  {
    var via := ProvableImports(q, possible, i);
    if Separable(q, possible, i) {
      SeparableImports(q, possible, i);
      assert ProvableSite(q, possible, Imported(q, i));
      assert Disputed(q, possible, i);
    }
  }

  /** In any order, of what was reached exactly the provable bindings are proven. */
  lemma ReachedIsProvable(q: Question, possible: set<nat>, order: seq<nat>, t: Tally)
    requires Undisputed(q, possible) && Reached(q, possible, order, t)
    ensures forall i :: i in t.proven <==> i in t.proven + t.separate && Provable(q, possible, i)
  {
    RunsAreBounded(q, possible, order, |order|);
    forall i | Provable(q, possible, i) ensures i !in t.separate { ProvableIsInseparable(q, possible, i); }
  }

  // ----- What refers through unique sources alone -----

  lemma ChainIsProving(q: Question, possible: set<nat>, chain: seq<nat>)
    requires OnceDeclared(q) && Chain(q, UniqueSources(q), chain)
    ensures Proving(q, possible, chain)
  {
    forall k | 0 <= k < |chain|
      ensures Ordinary(q, possible, chain[k]) && Imported(q, chain[k]) !in q.independent
      ensures Imports(q, UniqueSources(q), chain[k]) == Some(Imported(q, chain[k]))
    {
      DirectIsOrdinary(q, possible, chain, k);
    }
    forall k | 1 <= k < |chain| ensures Follows(q, possible, chain, k) { assert Link(q, UniqueSources(q), chain, k); }
  }

  lemma DirectIsOrdinary(q: Question, possible: set<nat>, chain: seq<nat>, k: nat)
    requires OnceDeclared(q) && Chain(q, UniqueSources(q), chain) && k < |chain|
    ensures Ordinary(q, possible, chain[k]) && Imported(q, chain[k]) !in q.independent
    ensures Imports(q, UniqueSources(q), chain[k]) == Some(Imported(q, chain[k]))
  {
    if k > 0 {
      assert Link(q, UniqueSources(q), chain, k);
      assert q.bindings[chain[k - 1]] in q.bindings;
    }
  }

  /** In a compatible question a binding is provable exactly when it refers through unique
      sources alone. */
  lemma ProvableIsDirect(q: Question, possible: set<nat>, i: nat)
    requires OnceDeclared(q)
    ensures Provable(q, possible, i) <==> Refers(q, UniqueSources(q), i)
  {
    if Provable(q, possible, i) { ProvableRefers(q, possible, i); }
    if Refers(q, UniqueSources(q), i) {
      var chain :| Chain(q, UniqueSources(q), chain) && Last(chain) == i;
      ChainIsProving(q, possible, chain);
    }
  }
}
