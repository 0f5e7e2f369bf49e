/** What the prover's answers say about the program. */
module ReferenceTruth {
  // The verdicts and the answers are compared with what refers to the declaration in the
  // worlds of `ReferenceWorlds`.

  import opened ReferenceBindings
  import opened ReferenceProver
  import opened ReferenceAnswer
  import opened ReferenceOrder
  import opened ReferenceWorlds
  import opened ReferenceScope
  import opened ReferenceCoherence
  import opened ReferenceNarrowed

  // ----- Verdicts are true -----

  lemma UniqueChainIsReal(q: Question, w: Sources, chain: seq<nat>)
    requires World(q, w) && Chain(q, UniqueSources(q), chain)
    ensures Chain(q, w, chain)
  {
    forall k | 0 <= k < |chain| ensures Imports(q, w, chain[k]) == Imports(q, UniqueSources(q), chain[k]) {
      assert Plausible(q.bindings[chain[k]], w[chain[k]]);
      if k > 0 { assert Link(q, UniqueSources(q), chain, k); }
    }
    forall k | 1 <= k < |chain| ensures Link(q, w, chain, k) {
      assert Link(q, UniqueSources(q), chain, k);
    }
  }

  lemma ProvenRefers(q: Question, w: Sources, s: set<nat>)
    requires World(q, w) && AllRefer(q, UniqueSources(q), s)
    ensures AllRefer(q, w, s)
  {
    forall i | i in s ensures Refers(q, w, i) {
      assert Refers(q, UniqueSources(q), i);
      var chain :| Chain(q, UniqueSources(q), chain) && Last(chain) == i;
      UniqueChainIsReal(q, w, chain);
    }
  }

  ghost predicate NoneRefers(q: Question, w: Sources, s: set<nat>)
    requires |w| == |q.bindings|
  {
    forall i :: i in s ==> !Refers(q, w, i)
  }

  lemma ApartNeverRefers(q: Question, possible: set<nat>, w: Sources, i: nat)
    requires World(q, w) && Guarded(q, w) && Closed(q, possible) && i < |q.bindings| && Apart(q, possible, i)
    ensures !Refers(q, w, i)
  {
    if Refers(q, w, i) {
      assert Plausible(q.bindings[i], w[i]);
      ReferringIsPossible(q, possible, w, i);
      SourceIsKnown(q, w, i);
    }
  }

  lemma SourceIsKnown(q: Question, w: Sources, i: nat)
    requires |w| == |q.bindings| && Refers(q, w, i)
    ensures i < |q.bindings| && w[i].Some? && w[i].value in Known(q)
  {
    var via := ReferringImports(q, w, i);
    if via.Some? { assert q.bindings[via.value] in q.bindings; }
  }

  lemma SeparateSourceNeverRefers(q: Question, w: Sources, t: Tally, i: nat)
    requires World(q, w) && Coherent(q, w) && NoneRefers(q, w, t.separate) && i < |q.bindings|
    requires Imports(q, w, i).Some? && Imports(q, w, i).value in SeparateExports(q, t)
    ensures !Refers(q, w, i)
  {
    if Refers(q, w, i) {
      var site := Imports(q, w, i).value;
      var via := ReferringImports(q, w, i);
      assert site !in q.independent;
      var j: nat :| j in t.separate && j < |q.bindings| && q.bindings[j].kind == ReExport
        && site == Local(q.bindings[j]);
      TwinRefers(q, w, via.value, j);
    }
  }

  lemma TwinRefers(q: Question, w: Sources, i: nat, j: nat)
    requires |w| == |q.bindings| && Coherent(q, w) && Refers(q, w, i) && Twins(q, i, j)
    ensures Refers(q, w, j)
  {
    assert Imports(q, w, i) == Imports(q, w, j);
    var via := ReferringImports(q, w, i);
    if via.None? { DirectImportRefers(q, w, j); } else { ImportOfReExportRefers(q, w, via.value, j); }
  }

  lemma {:induction false} SeparateNeverRefers(q: Question, possible: set<nat>, w: Sources, order: seq<nat>, n: nat)
    requires World(q, w) && Coherent(q, w) && Guarded(q, w) && Closed(q, possible)
    requires n <= |order| && Visits(q, order)
    ensures NoneRefers(q, w, After(q, possible, order, n).separate)
  {
    if n > 0 {
      SeparateNeverRefers(q, possible, w, order, n - 1);
      VisitKeepsTruth(q, possible, w, After(q, possible, order, n - 1), order[n - 1]);
    }
  }

  lemma VisitKeepsTruth(q: Question, possible: set<nat>, w: Sources, t: Tally, i: nat)
    requires World(q, w) && Coherent(q, w) && Guarded(q, w) && Closed(q, possible)
    requires i < |q.bindings| && NoneRefers(q, w, t.separate)
    ensures NoneRefers(q, w, Visit(q, possible, t, i).separate)
  {
    if Apart(q, possible, i) {
      ApartNeverRefers(q, possible, w, i);
    } else if VerdictOn(q, possible, t, i).Separates? {
      assert Plausible(q.bindings[i], w[i]);
      SeparateSourceNeverRefers(q, w, t, i);
    }
  }

  /** In every world the verdicts are the truth, in any order of visits. */
  lemma VerdictsAreTrue(q: Question, possible: set<nat>, w: Sources, order: seq<nat>)
    requires World(q, w) && Coherent(q, w) && Guarded(q, w) && Closed(q, possible) && Visits(q, order)
    ensures AllRefer(q, w, After(q, possible, order, |order|).proven)
    ensures NoneRefers(q, w, After(q, possible, order, |order|).separate)
  {
    ProvenBindingsHaveChains(q, possible, order, |order|);
    ProvenRefers(q, w, After(q, possible, order, |order|).proven);
    SeparateNeverRefers(q, possible, w, order, |order|);
  }

  // ----- Answers are true -----

  ghost function Referring(q: Question, w: Sources): set<nat>
    requires |w| == |q.bindings|
  {
    set i: nat | i < |q.bindings| && Refers(q, w, i)
  }

  /** The documents that import or re-export the declaration, and its own. */
  ghost function TrueUris(q: Question, w: Sources): set<string>
    requires |w| == |q.bindings|
  {
    Uris(q.bindings, Referring(q, w)) + {q.uri}
  }

  ghost function TrueNames(q: Question, w: Sources): set<Site>
    requires |w| == |q.bindings|
  {
    Declared(q) + Names(q.bindings, Referring(q, w))
  }

  ghost predicate Sound(q: Question, w: Sources, a: Answer)
    requires |w| == |q.bindings|
  {
    if q.exported == "default" then
      && (a.complete ==> a.identity == TrueUris(q, w))
      && (a.narrowed != {} ==> TrueUris(q, w) <= a.narrowed)
    else
      && (a.complete ==> a.identity == set o | o in q.occurrences && Site(o.uri, o.name) in TrueNames(q, w) :: o.uri)
      && (a.narrowed != {} ==>
            && q.uri in a.narrowed
            && forall o :: o in q.occurrences && !ForeignIn(q, w, o) ==> o.uri in a.narrowed)
  }

  lemma NarrowedDefaultCovers(q: Question, possible: set<nat>, w: Sources, t: Tally, n: Notes)
    requires World(q, w) && Guarded(q, w) && Closed(q, possible) && Reflects(q, t, n)
    requires NoneRefers(q, w, t.separate)
    ensures ConcludeDefault(q, possible, n).narrowed != {} ==>
      TrueUris(q, w) <= ConcludeDefault(q, possible, n).narrowed
  {
    ReferringIsReachedOrNarrowed(q, possible, w, t, n.reached);
    UrisCover(q.bindings, Referring(q, w), t.proven, possible - n.reached);
  }

  lemma CompleteDefaultIsTrue(q: Question, possible: set<nat>, w: Sources, t: Tally, n: Notes)
    requires World(q, w) && Guarded(q, w) && Closed(q, possible) && Reflects(q, t, n) && q.exported == "default"
    requires AllRefer(q, w, t.proven) && NoneRefers(q, w, t.separate)
    requires forall i :: i in t.proven ==> i < |q.bindings|
    requires Conclude(q, possible, n).complete
    ensures Conclude(q, possible, n).identity == TrueUris(q, w)
  {
    CompleteDefault(q, possible, t, n);
    ReferringIsReachedOrNarrowed(q, possible, w, t, n.reached);
    assert Referring(q, w) == t.proven;
  }

  lemma ReferringIsReachedOrNarrowed(q: Question, possible: set<nat>, w: Sources, t: Tally, reached: set<nat>)
    requires World(q, w) && Guarded(q, w) && Closed(q, possible) && reached == t.proven + t.separate
    requires NoneRefers(q, w, t.separate)
    ensures forall i :: i in Referring(q, w) ==> i in t.proven || i in possible - reached
  {
    forall i | i in Referring(q, w) ensures i in t.proven || i in possible - reached {
      ReferringIsPossible(q, possible, w, i);
    }
  }

  lemma UrisCover(bs: seq<Binding>, s: set<nat>, a: set<nat>, b: set<nat>)
    requires forall i :: i in s ==> i in a || i in b
    ensures Uris(bs, s) <= Uris(bs, a) + Uris(bs, b)
  {
  }

  lemma NamedIsSound(q: Question, possible: set<nat>, w: Sources, t: Tally, n: Notes)
    requires World(q, w) && Reflects(q, t, n) && Judged(q, possible, t) && q.exported != "default"
    requires AllRefer(q, w, t.proven) && NoneRefers(q, w, t.separate)
    ensures Sound(q, w, Conclude(q, possible, n))
  {
    NarrowedCovers(q, w, t, n);
    if Conclude(q, possible, n).complete {
      CompleteNamed(q, possible, t, n);
      assert Referring(q, w) == t.proven;
      assert n.provenNames == TrueNames(q, w);
    }
  }

  // ----- When a complete default answer is exact -----

  lemma ProvenUrisAreTrue(q: Question, possible: set<nat>, w: Sources, order: seq<nat>, t: Tally)
    requires World(q, w) && Reached(q, possible, order, t)
    ensures Uris(q.bindings, t.proven) + {q.uri} <= TrueUris(q, w)
  {
    ProvenBindingsHaveChains(q, possible, order, |order|);
    ProvenRefers(q, w, t.proven);
  }

  lemma MayUrisAreTrue(q: Question, c: Scope, w: Sources)
    requires World(q, w) && forall i: nat :: MayRefer(q, c, i) <==> Refers(q, w, i)
    ensures forall i: nat :: i < |q.bindings| && MayRefer(q, c, i) ==> q.bindings[i].uri in TrueUris(q, w)
  {
    forall i: nat | i < |q.bindings| && MayRefer(q, c, i) ensures q.bindings[i].uri in TrueUris(q, w) {
      assert i in Referring(q, w);
    }
  }

  /** Every binding that may refer in the scope lies in one of these documents. */
  predicate MayLieIn(q: Question, c: Scope, uris: set<string>) {
    forall i: nat :: i < |q.bindings| && MayRefer(q, c, i) ==> q.bindings[i].uri in uris
  }

  lemma MayUrisCover(q: Question, c: Scope, w: Sources, uris: set<string>)
    requires Holds(q, c, w) && q.uri in uris && MayLieIn(q, c, uris)
    ensures TrueUris(q, w) <= uris
  {
    forall i | i in Referring(q, w) ensures q.bindings[i].uri in uris { ReferringMayRefer(q, c, w, i); }
  }

  lemma ExactWhenNamed(q: Question, c: Scope, possible: set<nat>, order: seq<nat>, t: Tally, identity: set<string>)
    requires Reached(q, possible, order, t) && identity == Uris(q.bindings, t.proven) + {q.uri}
    requires c.CoherentWorlds? ==> Compatible(q)
    ensures (forall w :: Holds(q, c, w) ==> identity == TrueUris(q, w)) <==> MayLieIn(q, c, identity)
  {
    var widest := MayReferExactly(q, c);
    MayUrisAreTrue(q, c, widest);
    if MayLieIn(q, c, identity) {
      forall w | Holds(q, c, w) ensures identity == TrueUris(q, w) {
        ProvenUrisAreTrue(q, possible, w, order, t);
        MayUrisCover(q, c, w, identity);
      }
    }
  }

  /** Without a disputed name a complete default answer names exactly the documents of the
      provable bindings. */
  lemma CompleteDefaultIsProvable(q: Question, possible: set<nat>, order: seq<nat>, t: Tally, n: Notes)
    requires q.exported == "default" && Closed(q, possible) && Reached(q, possible, order, t) && Reflects(q, t, n)
    requires Conclude(q, possible, n).complete && Undisputed(q, possible)
    ensures Conclude(q, possible, n).identity == Uris(q.bindings, t.proven) + {q.uri}
    ensures t.proven == ProvableSet(q, possible)
  {
    CompleteDefault(q, possible, t, n);
    ReachedIsProvable(q, possible, order, t);
    forall i | i in ProvableSet(q, possible) ensures i in t.proven { ProvableIsPossible(q, possible, i); }
    RunsAreJudged(q, possible, order, |order|);
  }

  /** A complete default answer is exact in every world, coherent or not, exactly when each
      binding that may refer shares its document with a provable one or the declaration. */
  lemma CompleteDefaultInEveryWorld(q: Question, possible: set<nat>, order: seq<nat>, t: Tally, n: Notes)
    requires q.exported == "default" && Closed(q, possible) && Reached(q, possible, order, t) && Reflects(q, t, n)
    requires Conclude(q, possible, n).complete && Undisputed(q, possible)
    ensures (forall w :: World(q, w) ==> Conclude(q, possible, n).identity == TrueUris(q, w)) <==>
      MayLieIn(q, AllWorlds, Uris(q.bindings, ProvableSet(q, possible)) + {q.uri})
  {
    CompleteDefaultIsProvable(q, possible, order, t, n);
    ExactWhenNamed(q, AllWorlds, possible, order, t, Conclude(q, possible, n).identity);
    assert forall w :: World(q, w) <==> Holds(q, AllWorlds, w);
  }

  /** The documents that refer through unique sources alone, and the declaration's. */
  ghost function DirectUris(q: Question): set<string> { TrueUris(q, UniqueSources(q)) }

  /** No coherent world makes a binding refer in any other document. Without a coherent
      world there is nothing to miss. */
  ghost predicate Exact(q: Question) {
    Compatible(q) ==> MayLieIn(q, CoherentWorlds, DirectUris(q))
  }

  lemma ProvableUrisAreDirect(q: Question, possible: set<nat>)
    requires OnceDeclared(q)
    ensures Uris(q.bindings, ProvableSet(q, possible)) + {q.uri} == DirectUris(q)
  {
    forall i: nat | i < |q.bindings| ensures Provable(q, possible, i) <==> Refers(q, UniqueSources(q), i) {
      ProvableIsDirect(q, possible, i);
    }
    assert ProvableSet(q, possible) == Referring(q, UniqueSources(q));
  }

  /** A complete default answer is exact in every coherent world exactly when the question
      is: which documents it can miss is settled by the bindings. */
  lemma CompleteDefaultExactly(q: Question, possible: set<nat>, order: seq<nat>, t: Tally, n: Notes)
    requires q.exported == "default" && Closed(q, possible) && Reached(q, possible, order, t) && Reflects(q, t, n)
    requires Conclude(q, possible, n).complete
    ensures (forall w :: World(q, w) && Coherent(q, w) ==> Conclude(q, possible, n).identity == TrueUris(q, w)) <==>
      Exact(q)
    ensures Compatible(q) ==> Conclude(q, possible, n).identity == DirectUris(q)
  {
    assert forall w :: World(q, w) && Coherent(q, w) <==> Holds(q, CoherentWorlds, w);
    if Compatible(q) {
      CompatibleIsUndisputed(q, possible);
      CompleteDefaultIsProvable(q, possible, order, t, n);
      ProvableUrisAreDirect(q, possible);
      ExactWhenNamed(q, CoherentWorlds, possible, order, t, Conclude(q, possible, n).identity);
    } else {
      CoherentWorldsExist(q);
    }
  }

  // ----- The prover -----

  /** The prover. Its complete answers name exactly the documents that refer to the
      declaration, in every coherent world; a narrowed default answer misses none. That
      holds in each guarded world, hence in all of them when the question is tight; and a
      complete default answer is exact in all of them exactly when the question is. Without a
      disputed name the whole answer is that of the closures. */
  method ProveReferenceBindingChain(q: Question) returns (a: Answer)
    ensures forall w :: World(q, w) && Coherent(q, w) && Guarded(q, w) ==> Sound(q, w, a)
    ensures Tight(q, CoherentWorlds) ==> forall w :: World(q, w) && Coherent(q, w) ==> Sound(q, w, a)
    ensures q.exported == "default" && a.complete ==>
      ((forall w :: World(q, w) && Coherent(q, w) ==> a.identity == TrueUris(q, w)) <==> Exact(q))
    ensures !a.complete ==> a.identity == {}
    ensures |a.identity| <= q.limit && |a.narrowed| <= q.limit
    ensures exists possible, n ::
      LeastClosed(q, possible) && Outcome(q, possible, n) && a == Conclude(q, possible, n)
      && (Undisputed(q, possible) ==> a == IdealOf(q, possible, Closures(q, possible)))
  {
    var possible := FindPossible(q);
    var n := Classify(q, possible);
    ghost var order, t :| Reached(q, possible, order, t) && Settled(q, possible, t) && Reflects(q, t, n);
    a := Conclude(q, possible, n);
    forall w | World(q, w) && Coherent(q, w) && Guarded(q, w) ensures Sound(q, w, a) {
      AnswerIsSound(q, possible, w, order, t, n);
    }
    forall w | Holds(q, CoherentWorlds, w) && Tight(q, CoherentWorlds) ensures Guarded(q, w) {
      TightIsGuarded(q, CoherentWorlds, w);
    }
    if q.exported == "default" && a.complete { CompleteDefaultExactly(q, possible, order, t, n); }
    if Undisputed(q, possible) { UndisputedAnswerIsIdeal(q, possible, order, t, n); }
  }

  lemma AnswerIsSound(q: Question, possible: set<nat>, w: Sources, order: seq<nat>, t: Tally, n: Notes)
    requires World(q, w) && Coherent(q, w) && Guarded(q, w)
    requires Closed(q, possible) && Reached(q, possible, order, t) && Reflects(q, t, n)
    ensures Sound(q, w, Conclude(q, possible, n))
  {
    VerdictsAreTrue(q, possible, w, order);
    RunsAreJudged(q, possible, order, |order|);
    if q.exported == "default" {
      NarrowedDefaultCovers(q, possible, w, t, n);
      if Conclude(q, possible, n).complete { CompleteDefaultIsTrue(q, possible, w, t, n); }
    } else {
      NamedIsSound(q, possible, w, t, n);
    }
  }
}
