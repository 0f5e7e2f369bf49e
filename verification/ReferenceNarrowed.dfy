/** Which documents an answer lists. */
module ReferenceNarrowed {
  // Occurrences are told apart by the bindings whose names they stand under. Without a
  // disputed name the whole answer is a function of the two closures of the input.

  import opened Options
  import opened ReferenceBindings
  import opened ReferenceProver
  import opened ReferenceAnswer
  import opened ReferenceOrder

  // ----- Names and occurrences -----

  /** The occurrence stands in the binding's document under one of its two names. */
  predicate NamedBy(b: Binding, o: Occurrence) {
    o.uri == b.uri && (o.name == b.importedName || o.name == b.localName)
  }

  predicate NamedWithin(q: Question, s: set<nat>, o: Occurrence) {
    exists i: nat :: i in s && i < |q.bindings| && NamedBy(q.bindings[i], o)
  }

  /** Unqualified under a name of one of the `others` or of an independent declaration, or
      qualified by the local name of a binding to an external module. */
  predicate Foreign(q: Question, others: set<nat>, o: Occurrence) {
    || (o.qualified == Some(false) && (NamedWithin(q, others, o) || Site(o.uri, o.name) in q.independent))
    || (o.qualified == Some(true)
        && exists b :: b in q.bindings && Terminal(b) && b.uri == o.uri && o.qualifier == Some(b.localName))
  }

  lemma NamesWithin(q: Question, s: set<nat>, o: Occurrence)
    ensures Site(o.uri, o.name) in Names(q.bindings, s) <==> NamedWithin(q, s, o)
  {
    if NamedWithin(q, s, o) {
      var i: nat :| i in s && i < |q.bindings| && NamedBy(q.bindings[i], o);
      assert Site(q.bindings[i].uri, q.bindings[i].importedName) in Names(q.bindings, s);
      assert Local(q.bindings[i]) in Names(q.bindings, s);
    }
    if Site(o.uri, o.name) in Names(q.bindings, s) {
      var i: nat :| i in s && i < |q.bindings|
        && (Site(o.uri, o.name) == Site(q.bindings[i].uri, q.bindings[i].importedName)
            || Site(o.uri, o.name) == Local(q.bindings[i]));
      assert NamedBy(q.bindings[i], o);
    }
  }

  lemma TerminalIsSeparate(q: Question, possible: set<nat>, t: Tally, i: nat)
    requires Settled(q, possible, t) && i < |q.bindings| && Terminal(q.bindings[i])
    ensures i in t.separate
  {
    assert Visit(q, possible, t, i) == t;
    assert i in t.separate + {i};
  }

  lemma QualifiersAreExternal(q: Question, possible: set<nat>, t: Tally, uri: string, name: string)
    requires Settled(q, possible, t)
    ensures Site(uri, name) in Qualifiers(q.bindings, t.separate) <==>
      exists b :: b in q.bindings && Terminal(b) && b.uri == uri && b.localName == name
  {
    if exists b :: b in q.bindings && Terminal(b) && b.uri == uri && b.localName == name {
      var b :| b in q.bindings && Terminal(b) && b.uri == uri && b.localName == name;
      var i :| 0 <= i < |q.bindings| && q.bindings[i] == b;
      TerminalIsSeparate(q, possible, t, i);
      assert Local(q.bindings[i]) == Site(uri, name);
    }
  }

  lemma SeparateExactlyWhenForeign(q: Question, possible: set<nat>, t: Tally, n: Notes, o: Occurrence)
    requires Settled(q, possible, t) && Reflects(q, t, n)
    ensures IsSeparate(q, n, o) <==> Foreign(q, t.separate, o)
  {
    NamesWithin(q, t.separate, o);
    if o.qualifier.Some? { QualifiersAreExternal(q, possible, t, o.uri, o.qualifier.value); }
  }

  lemma ProvenExactlyWhenNamed(q: Question, t: Tally, n: Notes, o: Occurrence)
    requires Reflects(q, t, n) && o.uri != q.uri
    ensures IsProven(n, o) <==> NamedWithin(q, t.proven, o)
  {
    NamesWithin(q, t.proven, o);
  }

  /** The occurrence is under a name of the declaration itself. */
  predicate DeclaredHere(q: Question, o: Occurrence) {
    o.uri == q.uri && (o.name == q.declared || o.name == q.exported)
  }

  lemma ProvenIsNamed(q: Question, t: Tally, n: Notes, o: Occurrence)
    requires Reflects(q, t, n)
    ensures IsProven(n, o) <==> DeclaredHere(q, o) || NamedWithin(q, t.proven, o)
  {
    NamesWithin(q, t.proven, o);
  }

  // ----- The answer of the closures -----

  ghost function SeparableSet(q: Question, possible: set<nat>): set<nat> {
    set i: nat | i < |q.bindings| && Separable(q, possible, i)
  }

  /** The documents with an occurrence that is not foreign, and the declaration's. */
  function Listed(q: Question, others: set<nat>): set<string> {
    (set o | o in q.occurrences && !Foreign(q, others, o) :: o.uri) + {q.uri}
  }

  predicate Identifies(q: Question, proven: set<nat>, o: Occurrence) {
    DeclaredHere(q, o) || NamedWithin(q, proven, o)
  }

  function IdentityOf(q: Question, proven: set<nat>): set<string> {
    set o | o in q.occurrences && Identifies(q, proven, o) :: o.uri
  }

  function Documents(q: Question): set<string> {
    (set o | o in q.occurrences :: o.uri) + {q.uri}
  }

  predicate AllToldApart(q: Question, proven: set<nat>, separate: set<nat>) {
    && (forall i: nat :: i < |q.bindings| ==> i in proven + separate)
    && OccurrencesToldApart(q, proven, separate)
  }

  /** A named export: complete when every binding is proven or separate, every occurrence is
      under a proven name or foreign, and the documents are within the limit. What is listed
      for narrowing is whatever is not foreign, if that leaves a document out and is within
      the limit. */
  function IdealNamed(q: Question, proven: set<nat>, separate: set<nat>): Answer {
    var identity, listed := IdentityOf(q, proven), Listed(q, separate);
    var complete := AllToldApart(q, proven, separate) && |identity| <= q.limit;
    Answer(complete, if complete then identity else {},
           if |listed| < |Documents(q)| && |listed| <= q.limit then listed else {})
  }

  /** A default export: complete when every possible binding is proven or separate. Listed are
      the documents of all possible bindings that are not separate. */
  function IdealDefault(q: Question, possible: set<nat>, proven: set<nat>, separate: set<nat>): Answer {
    var identity := Uris(q.bindings, proven) + {q.uri};
    var listed := Uris(q.bindings, possible - separate) + {q.uri};
    var complete := possible <= proven + separate && |identity| <= q.limit;
    Answer(complete, if complete then identity else {}, if |listed| <= q.limit then listed else {})
  }

  function IdealOf(q: Question, possible: set<nat>, t: Tally): Answer {
    if q.exported == "default" then IdealDefault(q, possible, t.proven, t.separate)
    else IdealNamed(q, t.proven, t.separate)
  }

  lemma ListedIsNarrowed(q: Question, possible: set<nat>, t: Tally, n: Notes)
    requires Settled(q, possible, t) && Reflects(q, t, n)
    ensures NarrowedUris(q, n) == Listed(q, t.separate) && IdentityUris(q, n) == IdentityOf(q, t.proven)
  {
    forall o ensures IsSeparate(q, n, o) <==> Foreign(q, t.separate, o) {
      SeparateExactlyWhenForeign(q, possible, t, n, o);
    }
    forall o ensures IsProven(n, o) <==> Identifies(q, t.proven, o) { ProvenIsNamed(q, t, n, o); }
  }

  predicate OccurrencesToldApart(q: Question, proven: set<nat>, separate: set<nat>) {
    forall o :: o in q.occurrences ==> Identifies(q, proven, o) || Foreign(q, separate, o)
  }

  lemma OccurrencesExactly(q: Question, possible: set<nat>, t: Tally, n: Notes)
    requires Settled(q, possible, t) && Reflects(q, t, n)
    ensures (forall o :: o in q.occurrences ==> IsProven(n, o) || IsSeparate(q, n, o)) <==>
      OccurrencesToldApart(q, t.proven, t.separate)
  {
    forall o | o in q.occurrences
      ensures IsProven(n, o) || IsSeparate(q, n, o) <==> Identifies(q, t.proven, o) || Foreign(q, t.separate, o)
    {
      SeparateExactlyWhenForeign(q, possible, t, n, o);
      ProvenIsNamed(q, t, n, o);
    }
  }

  lemma ReachedIsInRange(q: Question, possible: set<nat>, t: Tally)
    requires Judged(q, possible, t)
    ensures forall i :: i in t.proven + t.separate ==> i < |q.bindings|
  {
  }

  lemma ClassifiedExactly(q: Question, possible: set<nat>, t: Tally, n: Notes)
    requires Settled(q, possible, t) && Reflects(q, t, n) && Judged(q, possible, t)
    ensures Classified(q, n) <==> AllToldApart(q, t.proven, t.separate)
  {
    OccurrencesExactly(q, possible, t, n);
    ReachedIsInRange(q, possible, t);
    ReachedAll(t.proven + t.separate, |q.bindings|);
    ClassifiedParts(q, n, t.proven + t.separate);
  }

  lemma ClassifiedParts(q: Question, n: Notes, reached: set<nat>)
    requires n.reached == reached
    ensures Classified(q, n) <==>
      |reached| == |q.bindings| && forall o :: o in q.occurrences ==> IsProven(n, o) || IsSeparate(q, n, o)
  {
  }

  /** A set of indices has full size exactly when it has them all. */
  lemma ReachedAll(s: set<nat>, n: nat)
    requires forall i :: i in s ==> i < n
    ensures |s| == n <==> forall i: nat :: i < n ==> i in s
  {
    if |s| == n {
      forall i: nat | i < n ensures i in s { FullSetHoldsAll(s, n, i); }
    }
    if forall i: nat :: i < n ==> i in s { WholeRange(s, n); }
  }

  lemma {:induction false} WholeRange(s: set<nat>, n: nat)
    requires forall i: nat :: i in s <==> i < n
    ensures |s| == n
  {
    if n == 0 {
      assert s == {};
    } else {
      WholeRange(s - {n - 1}, n - 1);
      assert |s| == |s - {n - 1}| + 1;
    }
  }

  lemma NamedIsIdeal(q: Question, possible: set<nat>, t: Tally, n: Notes)
    requires Settled(q, possible, t) && Reflects(q, t, n) && Judged(q, possible, t)
    ensures ConcludeNamed(q, n) == IdealNamed(q, t.proven, t.separate)
  {
    ListedIsNarrowed(q, possible, t, n);
    ClassifiedExactly(q, possible, t, n);
    assert AllUris(q) == Documents(q);
  }

  lemma DefaultIsIdeal(q: Question, possible: set<nat>, t: Tally, n: Notes)
    requires Reflects(q, t, n) && t.proven <= possible && t.proven !! t.separate
    ensures ConcludeDefault(q, possible, n) == IdealDefault(q, possible, t.proven, t.separate)
  {
    DefaultLists(q, possible, t);
  }

  lemma DefaultLists(q: Question, possible: set<nat>, t: Tally)
    requires t.proven <= possible && t.proven !! t.separate
    ensures Uris(q.bindings, t.proven) + {q.uri} + Uris(q.bindings, possible - (t.proven + t.separate))
         == Uris(q.bindings, possible - t.separate) + {q.uri}
  {
    var rest := possible - (t.proven + t.separate);
    assert possible - t.separate == t.proven + rest;
    assert Uris(q.bindings, t.proven + rest) == Uris(q.bindings, t.proven) + Uris(q.bindings, rest);
  }

  /** Whatever the order of the bindings, the answer is that of the verdicts it settles on. */
  lemma AnswerIsIdeal(q: Question, possible: set<nat>, order: seq<nat>, t: Tally, n: Notes)
    requires Closed(q, possible) && Reached(q, possible, order, t) && Settled(q, possible, t) && Reflects(q, t, n)
    ensures Conclude(q, possible, n) == IdealOf(q, possible, t)
  {
    RunsAreJudged(q, possible, order, |order|);
    ProvenBindingsArePossible(q, possible, order);
    if q.exported == "default" {
      DefaultIsIdeal(q, possible, t, n);
    } else {
      NamedIsIdeal(q, possible, t, n);
    }
  }

  /** The verdicts that chains alone give. */
  ghost function Closures(q: Question, possible: set<nat>): Tally {
    Tally(ProvableSet(q, possible), SeparableSet(q, possible))
  }

  /** Without a disputed name the answer is that of the two closures of the input. */
  lemma UndisputedAnswerIsIdeal(q: Question, possible: set<nat>, order: seq<nat>, t: Tally, n: Notes)
    requires Closed(q, possible) && Undisputed(q, possible)
    requires Reached(q, possible, order, t) && Settled(q, possible, t) && Reflects(q, t, n)
    ensures Conclude(q, possible, n) == IdealOf(q, possible, Closures(q, possible))
  {
    UndisputedVerdicts(q, possible, order, t);
    RunsAreJudged(q, possible, order, |order|);
    VerdictsAreClosures(q, possible, t);
    AnswerIsIdeal(q, possible, order, t, n);
  }

  lemma VerdictsAreClosures(q: Question, possible: set<nat>, t: Tally)
    requires Judged(q, possible, t)
    requires forall i :: i in t.proven <==> Provable(q, possible, i)
    requires forall i :: i in t.separate <==> Separable(q, possible, i)
    ensures t == Closures(q, possible)
  {
    assert t.proven == ProvableSet(q, possible);
    assert t.separate == SeparableSet(q, possible);
  }

  // ----- What narrowing may leave out -----

  ghost function Strangers(q: Question, w: Sources): set<nat>
    requires |w| == |q.bindings|
  {
    set i: nat | i < |q.bindings| && !Refers(q, w, i)
  }

  /** In the world the occurrence means something else. */
  ghost predicate ForeignIn(q: Question, w: Sources, o: Occurrence)
    requires |w| == |q.bindings|
  {
    Foreign(q, Strangers(q, w), o)
  }

  lemma ForeignGrows(q: Question, few: set<nat>, many: set<nat>, o: Occurrence)
    requires Foreign(q, few, o) && forall i :: i in few && i < |q.bindings| ==> i in many
    ensures Foreign(q, many, o)
  {
    if o.qualified == Some(false) && NamedWithin(q, few, o) {
      var i: nat :| i in few && i < |q.bindings| && NamedBy(q.bindings[i], o);
      assert i in many;
    }
  }

  /** What is recorded as separate means something else in every world. */
  lemma SeparateIsForeign(q: Question, w: Sources, t: Tally, n: Notes, o: Occurrence)
    requires |w| == |q.bindings| && Reflects(q, t, n) && IsSeparate(q, n, o)
    requires forall i :: i in t.separate ==> !Refers(q, w, i)
    ensures ForeignIn(q, w, o)
  {
    NamesWithin(q, t.separate, o);
    assert Foreign(q, t.separate, o) by {
      if o.qualified == Some(true) {
        var i: nat :| i in t.separate && i < |q.bindings| && Terminal(q.bindings[i])
          && Local(q.bindings[i]) == Site(o.uri, o.qualifier.value);
        assert q.bindings[i] in q.bindings;
      }
    }
    ForeignGrows(q, t.separate, Strangers(q, w), o);
  }

  /** A narrowed list, complete answer or not, holds the declaration's document and every
      document with an occurrence that does not mean something else. */
  lemma NarrowedCovers(q: Question, w: Sources, t: Tally, n: Notes)
    requires |w| == |q.bindings| && Reflects(q, t, n) && forall i :: i in t.separate ==> !Refers(q, w, i)
    ensures q.uri in NarrowedUris(q, n)
    ensures forall o :: o in q.occurrences && !ForeignIn(q, w, o) ==> o.uri in NarrowedUris(q, n)
  {
    forall o | o in q.occurrences && !ForeignIn(q, w, o) ensures o.uri in NarrowedUris(q, n) {
      if IsSeparate(q, n, o) { SeparateIsForeign(q, w, t, n, o); }
    }
  }
}
