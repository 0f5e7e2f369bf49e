/** Where the prover's answers stop. */
module ReferenceLimits {
  // Concrete inputs on which a stronger claim fails.

  import opened Options
  import opened ReferenceBindings
  import opened ReferenceProver
  import opened ReferenceAnswer
  import opened ReferenceOrder
  import opened ReferenceWorlds
  import opened ReferenceScope
  import opened ReferenceCoherence
  import opened ReferenceTruth
  import opened ReferenceNarrowed

  function From(uri: string, name: string, alias: string, kind: Kind, source: string): Binding {
    Binding(uri, name, alias, "x", kind, Unique, Some(source), None)
  }

  // ----- A name re-exported twice -----

  /** Document `m` exports `X` twice: through `p` it is the declaration `A` of `d`, through
      `n` it is the independent `B` of `o`. Document `u` imports it. */
  function Clash(): Question {
    Question([From("p", "A", "A", ReExport, "d"),
              From("m", "A", "X", ReExport, "p"), From("m", "B", "X", ReExport, "n"),
              From("u", "X", "X", Import, "m"),
              From("n", "B", "B", ReExport, "o")],
             [], {Site("o", "B")}, "d", "A", "A", 10)
  }

  lemma ClashKnows()
    ensures Known(Clash()) == {"p", "m", "u", "n", "o", "d"}
  {
    var bs := Clash().bindings;
    assert bs[0] in bs && bs[1] in bs && bs[3] in bs && bs[4] in bs;
    assert Site("o", "B") in Clash().independent;
  }

  function ClashSite(i: nat): Site {
    if i == 0 then Site("d", "A") else if i == 1 then Site("p", "A") else if i == 2 then Site("n", "B")
    else if i == 3 then Site("m", "X") else Site("o", "B")
  }

  /** Some binding of `s` re-exports what binding `i` imports. */
  predicate ClashFed(i: nat, s: set<nat>) {
    (i == 1 && 0 in s) || (i == 2 && 4 in s) || (i == 3 && (1 in s || 2 in s))
  }

  lemma ClashExports(s: set<nat>, i: nat)
    requires i < 5
    ensures ClashSite(i) in Exports(Clash().bindings, s) <==> ClashFed(i, s)
  {
    var bs := Clash().bindings;
    assert Local(bs[0]) == Site("p", "A") && Local(bs[1]) == Site("m", "X") && Local(bs[2]) == Site("m", "X");
    assert Local(bs[4]) == Site("n", "B") && bs[3].kind == Import;
    if ClashSite(i) in Exports(bs, s) {
      var k: nat :| k in s && k < |bs| && bs[k].kind == ReExport && ClashSite(i) == Local(bs[k]);
    }
  }

  lemma ClashVerdict(possible: set<nat>, t: Tally, i: nat, proven: bool, separate: bool)
    requires i < 5
    requires proven == (ClashSite(i) in ProvenExports(Clash(), t))
    requires separate == (ClashSite(i) in SeparateExports(Clash(), t))
    ensures VerdictOn(Clash(), possible, t, i) ==
      if proven == separate then Skip else if proven then Proves else Separates
  {
    ClashKnows();
  }

  function ClashNext(t: Tally, i: nat): Tally {
    var proven, separate := i == 0 || ClashFed(i, t.proven), i == 4 || ClashFed(i, t.separate);
    if proven == separate then t
    else if proven then t.(proven := t.proven + {i})
    else t.(separate := t.separate + {i})
  }

  lemma ClashStep(possible: set<nat>, t: Tally, i: nat)
    requires i < 5
    ensures Visit(Clash(), possible, t, i) == ClashNext(t, i)
  {
    ClashExports(t.proven, i);
    ClashExports(t.separate, i);
    var site := ClashSite(i);
    ClashVerdict(possible, t, i, site in ProvenExports(Clash(), t), site in SeparateExports(Clash(), t));
  }

  lemma ClashSettles(possible: set<nat>, t: Tally)
    requires t == Tally({0, 1, 3}, {2, 4}) || t == Tally({0, 1}, {2, 3, 4})
    ensures Settled(Clash(), possible, t)
  {
    forall i: nat | i < 5 ensures Visit(Clash(), possible, t, i) == t {
      ClashStep(possible, t, i);
      assert i == 0 || i == 1 || i == 2 || i == 3 || i == 4;
      assert t.proven + {0} == t.proven && t.proven + {1} == t.proven;
      assert t.separate + {2} == t.separate && t.separate + {4} == t.separate;
    }
  }

  function ClashRun(order: seq<nat>, n: nat): Tally
    requires n <= |order|
  {
    if n == 0 then Tally({}, {}) else ClashNext(ClashRun(order, n - 1), order[n - 1])
  }

  lemma {:induction false} ClashRuns(possible: set<nat>, order: seq<nat>, n: nat)
    requires Visits(Clash(), order) && n <= |order|
    ensures After(Clash(), possible, order, n) == ClashRun(order, n)
  {
    if n > 0 {
      ClashRuns(possible, order, n - 1);
      ClashStep(possible, ClashRun(order, n - 1), order[n - 1]);
    }
  }

  /** Two passes over the bindings, document by document: in the order p, m, u, n the
      import of `u` is proven, in the order n, m, u, p it is separate, and nothing changes
      the verdicts any more. */
  lemma OrderMatters(possible: set<nat>, a: seq<nat>, b: seq<nat>)
    requires a == [0, 1, 2, 3, 4, 0, 1, 2, 3, 4] && b == [4, 1, 2, 3, 0, 4, 1, 2, 3, 0]
    ensures var t := Tally({0, 1, 3}, {2, 4}); Reached(Clash(), possible, a, t) && Settled(Clash(), possible, t)
    ensures var t := Tally({0, 1}, {2, 3, 4}); Reached(Clash(), possible, b, t) && Settled(Clash(), possible, t)
  {
    ClashReaches(possible, a);
    ClashReaches(possible, b);
    ProvenPasses(a);
    SeparatePasses(b);
    ClashSettles(possible, Tally({0, 1, 3}, {2, 4}));
    ClashSettles(possible, Tally({0, 1}, {2, 3, 4}));
  }

  lemma ClashReaches(possible: set<nat>, order: seq<nat>)
    requires Visits(Clash(), order)
    ensures Reached(Clash(), possible, order, ClashRun(order, |order|))
  {
    ClashRuns(possible, order, |order|);
  }

  lemma ProvenPasses(order: seq<nat>)
    requires order == [0, 1, 2, 3, 4, 0, 1, 2, 3, 4]
    ensures ClashRun(order, 10) == Tally({0, 1, 3}, {2, 4})
  {
    assert ClashRun(order, 1) == Tally({0}, {});
    assert ClashRun(order, 2) == Tally({0, 1}, {});
    assert ClashRun(order, 3) == Tally({0, 1}, {});
    assert ClashRun(order, 4) == Tally({0, 1, 3}, {});
    assert ClashRun(order, 5) == Tally({0, 1, 3}, {4});
    assert ClashRun(order, 7) == Tally({0, 1, 3}, {4});
    assert ClashRun(order, 8) == Tally({0, 1, 3}, {2, 4});
  }

  lemma SeparatePasses(order: seq<nat>)
    requires order == [4, 1, 2, 3, 0, 4, 1, 2, 3, 0]
    ensures ClashRun(order, 10) == Tally({0, 1}, {2, 3, 4})
  {
    assert ClashRun(order, 1) == Tally({}, {4});
    assert ClashRun(order, 2) == Tally({}, {4});
    assert ClashRun(order, 3) == Tally({}, {2, 4});
    assert ClashRun(order, 4) == Tally({}, {2, 3, 4});
    assert ClashRun(order, 5) == Tally({0}, {2, 3, 4});
    assert ClashRun(order, 7) == Tally({0, 1}, {2, 3, 4});
    assert ClashRun(order, 8) == Tally({0, 1}, {2, 3, 4});
  }

  // ----- A default export behind a named re-export -----

  /** A document re-exports the default as `X`; another imports `X` from a package nobody
      resolved. */
  function Hidden(): Question {
    Question([From("m", "default", "X", ReExport, "d"),
              Binding("u", "X", "Y", "pkg", Import, Unsupported, None, None)],
             [], {}, "d", "D", "default", 10)
  }

  /** The answer is complete whatever the package is, yet in the world where the package is
      the re-exporting document it misses the importing one. */
  lemma DefaultCanMissHiddenImporter(possible: set<nat>, t: Tally, n: Notes)
    requires LeastClosed(Hidden(), possible) && Judged(Hidden(), possible, t) && t.proven !! t.separate
    requires Settled(Hidden(), possible, t) && Reflects(Hidden(), t, n)
    ensures var q, w, a := Hidden(), [Some("d"), Some("m")], Conclude(Hidden(), possible, n);
      && World(q, w) && Coherent(q, w) && PassedOver(q, 1) && Refers(q, w, 1)
      && a.complete && "u" in TrueUris(q, w) && "u" !in a.identity
  {
    HiddenReaches(possible, t);
    HiddenRefers([Some("d"), Some("m")]);
    HiddenIsComplete(possible, t, n);
  }

  lemma HiddenIsComplete(possible: set<nat>, t: Tally, n: Notes)
    requires LeastClosed(Hidden(), possible) && Reflects(Hidden(), t, n) && t.proven == {0}
    requires PassedOver(Hidden(), 1)
    ensures Conclude(Hidden(), possible, n).complete && "u" !in Conclude(Hidden(), possible, n).identity
  {
    HiddenIsSmall(possible);
    HiddenUris(n);
    DefaultIsComplete(Hidden(), possible, n, {"m", "d"});
  }

  lemma HiddenIsSmall(possible: set<nat>)
    requires LeastClosed(Hidden(), possible) && PassedOver(Hidden(), 1)
    ensures possible <= {0}
  {
    PassedOverIsNotPossible(Hidden(), possible, 1);
  }

  lemma HiddenUris(n: Notes)
    requires n.provenUris == Uris(Hidden().bindings, {0})
    ensures n.provenUris + {"d"} == {"m", "d"}
  {
    var bs := Hidden().bindings;
    assert bs[0].uri == "m";
  }

  lemma DefaultIsComplete(q: Question, possible: set<nat>, n: Notes, identity: set<string>)
    requires possible <= n.reached && n.provenUris + {q.uri} == identity && |identity| <= q.limit
    ensures ConcludeDefault(q, possible, n).complete && ConcludeDefault(q, possible, n).identity == identity
  {
  }

  lemma HiddenReaches(possible: set<nat>, t: Tally)
    requires Judged(Hidden(), possible, t) && t.proven !! t.separate && Settled(Hidden(), possible, t)
    ensures t.proven == {0}
  {
    var q := Hidden();
    assert q.uri in Known(q);
    assert !Apart(q, possible, 0);
    assert Origin(q) !in SeparateExports(q, t);
    assert Visit(q, possible, t, 0) == t;
    assert VerdictOn(q, possible, t, 0).Proves?;
    assert 0 in t.proven + {0};
  }

  lemma HiddenRefers(w: Sources)
    requires w == [Some("d"), Some("m")]
    ensures World(Hidden(), w) && Coherent(Hidden(), w) && PassedOver(Hidden(), 1) && Refers(Hidden(), w, 1)
    ensures "u" in TrueUris(Hidden(), w)
  {
    var q := Hidden();
    assert Open(q.bindings[1]);
    DirectImportRefers(q, w, 0);
    ImportOfReExportRefers(q, w, 0, 1);
    assert 1 in Referring(q, w) && q.bindings[1].uri == "u";
  }

  // ----- Narrowing by name -----

  /** One document gives the name `A` to the declaration and takes another `A` under an alias. */
  function Swapped(): Question {
    Question([From("u", "A", "B", Import, "o"), From("u", "C", "A", Import, "d")],
             [Occurrence("u", "A", Some(false), None), Occurrence("d", "C", Some(false), None)],
             {Site("o", "A")}, "d", "C", "C", 10)
  }

  /** A complete answer whose narrowed documents miss an identity document: the occurrence
      counts both as proven and as separate. */
  lemma NarrowedCanMissIdentity(possible: set<nat>, t: Tally, n: Notes)
    requires Judged(Swapped(), possible, t) && t.proven !! t.separate
    requires Settled(Swapped(), possible, t) && Reflects(Swapped(), t, n)
    ensures var a := Conclude(Swapped(), possible, n);
      a.complete && "u" in a.identity && a.narrowed == {"d"}
  {
    var q := Swapped();
    SwappedReaches(possible, t);
    SwappedNames(n);
    var o, d := q.occurrences[0], q.occurrences[1];
    SwappedOccurrences(n, o, d);
    SwappedUris(q, n, o, d);
  }

  lemma SwappedReaches(possible: set<nat>, t: Tally)
    requires Judged(Swapped(), possible, t) && t.proven !! t.separate && Settled(Swapped(), possible, t)
    ensures t == Tally({1}, {0})
  {
    var q := Swapped();
    assert Site("o", "A") in q.independent && q.uri in Known(q) && "o" in Known(q);
    assert forall s :: Exports(q.bindings, s) == {};
    assert !Apart(q, possible, 0) && !Apart(q, possible, 1);
    assert Visit(q, possible, t, 0) == t && Visit(q, possible, t, 1) == t;
    assert VerdictOn(q, possible, t, 0).Separates? && VerdictOn(q, possible, t, 1).Proves?;
    assert 0 in t.separate + {0} && 1 in t.proven + {1};
    assert |q.bindings| == 2;
  }

  lemma SwappedNames(n: Notes)
    requires Reflects(Swapped(), Tally({1}, {0}), n)
    ensures n.provenNames == {Site("d", "C"), Site("u", "C"), Site("u", "A")}
    ensures n.separateNames == {Site("o", "A"), Site("u", "A"), Site("u", "B")}
    ensures |n.reached| == 2
  {
    var bs := Swapped().bindings;
    assert Names(bs, {1}) == {Site("u", "C"), Site("u", "A")};
    assert Names(bs, {0}) == {Site("u", "A"), Site("u", "B")};
    assert n.reached == {0, 1};
  }

  lemma SwappedOccurrences(n: Notes, o: Occurrence, d: Occurrence)
    requires n.provenNames == {Site("d", "C"), Site("u", "C"), Site("u", "A")}
    requires n.separateNames == {Site("o", "A"), Site("u", "A"), Site("u", "B")}
    requires o == Occurrence("u", "A", Some(false), None) && d == Occurrence("d", "C", Some(false), None)
    ensures IsProven(n, o) && IsProven(n, d) && IsSeparate(Swapped(), n, o) && !IsSeparate(Swapped(), n, d)
  {
  }

  lemma SwappedUris(q: Question, n: Notes, o: Occurrence, d: Occurrence)
    requires q.occurrences == [o, d] && o.uri == "u" && d.uri == "d" == q.uri && q.limit == 10 && |q.bindings| == 2
    requires IsProven(n, o) && IsProven(n, d) && IsSeparate(q, n, o) && !IsSeparate(q, n, d) && |n.reached| == 2
    ensures ConcludeNamed(q, n) == Answer(true, {"u", "d"}, {"d"})
  {
    SwappedSets(q, n, o, d);
    assert |{"u", "d"}| == 2;
  }

  lemma SwappedSets(q: Question, n: Notes, o: Occurrence, d: Occurrence)
    requires q.occurrences == [o, d] && o.uri == "u" && d.uri == "d" == q.uri
    requires IsProven(n, o) && IsProven(n, d) && IsSeparate(q, n, o) && !IsSeparate(q, n, d)
    ensures IdentityUris(q, n) == {"u", "d"} && NarrowedUris(q, n) == {"d"} && AllUris(q) == {"u", "d"}
  {
    assert o in q.occurrences && d in q.occurrences;
  }

  /** Some occurrence is under a name of a proven binding, and all are foreign. */
  predicate Dropped(q: Question, t: Tally, uri: string) {
    && uri != q.uri
    && (exists o :: o in q.occurrences && o.uri == uri && NamedWithin(q, t.proven, o))
    && forall o :: o in q.occurrences && o.uri == uri ==> Foreign(q, t.separate, o)
  }

  lemma NarrowedDropsByVerdicts(q: Question, possible: set<nat>, t: Tally, n: Notes, uri: string)
    requires q.exported != "default" && Settled(q, possible, t) && Reflects(q, t, n)
    requires Conclude(q, possible, n).complete && Conclude(q, possible, n).narrowed != {}
    ensures var a := Conclude(q, possible, n);
      uri in a.identity && uri !in a.narrowed <==> Dropped(q, t, uri)
  {
    if uri != q.uri {
      forall o | o in q.occurrences && o.uri == uri
        ensures IsSeparate(q, n, o) <==> Foreign(q, t.separate, o)
        ensures IsProven(n, o) <==> NamedWithin(q, t.proven, o)
      {
        SeparateExactlyWhenForeign(q, possible, t, n, o);
        ProvenExactlyWhenNamed(q, t, n, o);
      }
      DropsExactly(q, t, n, uri);
    }
  }

  lemma DropsExactly(q: Question, t: Tally, n: Notes, uri: string)
    requires uri != q.uri
    requires forall o :: o in q.occurrences && o.uri == uri ==> (IsSeparate(q, n, o) <==> Foreign(q, t.separate, o))
    requires forall o :: o in q.occurrences && o.uri == uri ==> (IsProven(n, o) <==> NamedWithin(q, t.proven, o))
    ensures uri in IdentityUris(q, n) && uri !in NarrowedUris(q, n) <==> Dropped(q, t, uri)
  {
  }

  /** The bindings of `s` proven and all others separate. */
  function Split(q: Question, s: set<nat>): Tally {
    Tally(s, set i: nat | i < |q.bindings| && i !in s)
  }

  /** The verdicts of the input: what a chain from the declaration proves is proven. */
  ghost function ByProof(q: Question, possible: set<nat>): Tally { Split(q, ProvableSet(q, possible)) }

  lemma CompleteNamedIsByProof(q: Question, possible: set<nat>, order: seq<nat>, t: Tally, n: Notes)
    requires q.exported != "default" && Undisputed(q, possible)
    requires Reached(q, possible, order, t) && Reflects(q, t, n) && Conclude(q, possible, n).complete
    ensures t == ByProof(q, possible)
  {
    RunsAreJudged(q, possible, order, |order|);
    CompleteNamed(q, possible, t, n);
    ReachedIsProvable(q, possible, order, t);
    VerdictsAreSplit(q, possible, t, ProvableSet(q, possible));
  }

  lemma VerdictsAreSplit(q: Question, possible: set<nat>, t: Tally, s: set<nat>)
    requires Judged(q, possible, t) && t.proven !! t.separate
    requires forall i: nat :: i < |q.bindings| ==> i in t.proven || i in t.separate
    requires forall i: nat :: i < |q.bindings| ==> (i in s <==> Provable(q, possible, i))
    requires forall i :: i in s ==> i < |q.bindings|
    requires forall i :: i in t.proven <==> i in t.proven + t.separate && Provable(q, possible, i)
    ensures t == Split(q, s)
  {
    SameVerdicts(|q.bindings|, t.proven, t.separate, s, Split(q, s).separate);
  }

  lemma SameVerdicts(n: nat, proven: set<nat>, separate: set<nat>, s: set<nat>, others: set<nat>)
    requires forall i :: i in proven ==> i < n && i in s
    requires forall i :: i in separate ==> i < n && i !in s
    requires forall i: nat :: i < n ==> i in proven || i in separate
    requires forall i :: i in s ==> i < n
    requires forall i: nat :: i in others <==> i < n && i !in s
    ensures proven == s && separate == others
  {
  }

  /** A complete answer drops an identity document from the narrowed ones exactly when the
      document has an occurrence under a name of a provable binding and all its occurrences
      are foreign, every other binding counting as separate. */
  lemma NarrowedDropsExactly(q: Question, possible: set<nat>, order: seq<nat>, t: Tally, n: Notes, uri: string)
    requires q.exported != "default" && Undisputed(q, possible)
    requires Reached(q, possible, order, t) && Settled(q, possible, t) && Reflects(q, t, n)
    requires Conclude(q, possible, n).complete && Conclude(q, possible, n).narrowed != {}
    ensures var a := Conclude(q, possible, n);
      uri in a.identity && uri !in a.narrowed <==> Dropped(q, ByProof(q, possible), uri)
  {
    CompleteNamedIsByProof(q, possible, order, t, n);
    NarrowedDropsByVerdicts(q, possible, t, n, uri);
  }

  /** Narrowing keeps every identity document exactly when no document is dropped so. */
  lemma NarrowedCoversExactly(q: Question, possible: set<nat>, order: seq<nat>, t: Tally, n: Notes)
    requires q.exported != "default" && Undisputed(q, possible)
    requires Reached(q, possible, order, t) && Settled(q, possible, t) && Reflects(q, t, n)
    requires Conclude(q, possible, n).complete && Conclude(q, possible, n).narrowed != {}
    ensures Conclude(q, possible, n).identity <= Conclude(q, possible, n).narrowed <==>
      forall uri :: !Dropped(q, ByProof(q, possible), uri)
  {
    forall uri ensures var a := Conclude(q, possible, n);
      uri in a.identity && uri !in a.narrowed <==> Dropped(q, ByProof(q, possible), uri)
    {
      NarrowedDropsExactly(q, possible, order, t, n, uri);
    }
  }

  /** A question with a coherent world has no disputed name, and in it the provable bindings
      are those that refer through unique sources alone. */
  lemma CompatibleIsByProof(q: Question, possible: set<nat>)
    requires Compatible(q) && Closed(q, possible)
    ensures Undisputed(q, possible)
    ensures ByProof(q, possible) == Split(q, Referring(q, UniqueSources(q)))
  {
    CompatibleIsUndisputed(q, possible);
    forall i: nat | i < |q.bindings| ensures Provable(q, possible, i) <==> Refers(q, UniqueSources(q), i) {
      ProvableIsDirect(q, possible, i);
    }
    assert ProvableSet(q, possible) == Referring(q, UniqueSources(q));
  }

  // ----- Two scopes -----

  /** One document re-exports two names of an unresolved package under one name. */
  function Forked(): Question {
    Question([From("m", "default", "X", ReExport, "d"),
              Binding("b", "X", "L", "pkg", ReExport, Unsupported, None, None),
              Binding("b", "Y", "L", "pkg", ReExport, Unsupported, None, None)],
             [], {}, "d", "D", "default", 10)
  }

  lemma ForkedMayRefer()
    ensures MayRefer(Forked(), AllWorlds, 1)
  {
    var q := Forked();
    assert Open(q.bindings[1]);
    assert MayTake(q, AllWorlds, 0, Origin(q)) && MayWithin(q, AllWorlds, 0, 2);
    FedMayRefer(q, AllWorlds, 0, 1, 2);
  }

  lemma ForkedTakesNothing(i: nat, s: Site)
    requires i == 1 || i == 2
    ensures !MayTake(Forked(), CoherentWorlds, i, s)
  {
    assert Twins(Forked(), 1, 2) && Twins(Forked(), 2, 1);
  }

  lemma ForkedStaysOut(i: nat, n: nat)
    requires i == 1 || i == 2
    ensures !MayWithin(Forked(), CoherentWorlds, i, n)
  {
    var q, c := Forked(), CoherentWorlds;
    ForkedTakesNothing(i, Origin(q));
    forall j: nat | j < |q.bindings| ensures !MayFeed(q, c, j, i) { ForkedTakesNothing(i, Local(q.bindings[j])); }
  }

  lemma ForkedDirect()
    ensures DirectUris(Forked()) == {"d", "m"}
  {
    var q := Forked();
    var w := UniqueSources(q);
    DirectImportRefers(q, w, 0);
    forall i | i in Referring(q, w) ensures i == 0 { var via := ReferringImports(q, w, i); }
    assert Referring(q, w) == {0};
    assert Uris(q.bindings, {0}) == {"m"};
  }

  lemma ForkedIsCompatible()
    ensures Compatible(Forked())
  {
    var q := Forked();
    assert forall u: nat, i: nat :: Anchors(q, u, i) ==> u == 0 && i == 0;
  }

  /** Its first re-export leads to the declaration in some world, but in no coherent one. A
      complete answer is exact in the coherent worlds and not in all. */
  lemma OnlyIncoherentWorldsRefer()
    ensures Compatible(Forked())
    ensures MayRefer(Forked(), AllWorlds, 1) && !MayRefer(Forked(), CoherentWorlds, 1)
    ensures Exact(Forked()) && !MayLieIn(Forked(), AllWorlds, DirectUris(Forked()))
  {
    var q := Forked();
    ForkedIsCompatible();
    ForkedMayRefer();
    ForkedDirect();
    forall i: nat | i < |q.bindings| && MayRefer(q, CoherentWorlds, i) ensures i == 0 {
      if i != 0 { ForkedStaysOut(i, |q.bindings|); }
    }
    ForkedStaysOut(1, |q.bindings|);
  }
}
