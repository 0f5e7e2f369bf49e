/** The second loop of the reference prover with its tables, and the answer drawn from the
    tables: complete or not, identity documents, narrowed documents. */
module ReferenceAnswer {
  import opened Options
  import opened RelativeSources
  import opened ReferenceBindings
  import opened ReferenceProver

  /** The tables of the second loop. */
  datatype Notes = Notes(provenNames: set<Site>, provenExports: set<Site>, separateNames: set<Site>,
                         separateExports: set<Site>, qualifiers: set<Site>, reached: set<nat>, provenUris: set<string>)

  // ----- What the tables hold -----

  function NamesOf(b: Binding): set<Site> { {Site(b.uri, b.importedName), Local(b)} }

  function Names(bs: seq<Binding>, s: set<nat>): set<Site> {
    (set i: nat | i in s && i < |bs| :: Site(bs[i].uri, bs[i].importedName))
    + (set i: nat | i in s && i < |bs| :: Local(bs[i]))
  }

  function Uris(bs: seq<Binding>, s: set<nat>): set<string> {
    set i: nat | i in s && i < |bs| :: bs[i].uri
  }

  predicate Terminal(b: Binding) { b.resolution == External && b.terminal.Some? }

  function Qualifiers(bs: seq<Binding>, s: set<nat>): set<Site> {
    set i: nat | i in s && i < |bs| && Terminal(bs[i]) :: Local(bs[i])
  }

  function Declared(q: Question): set<Site> { {Site(q.uri, q.declared), Origin(q)} }

  /** The tables record exactly the tally. */
  predicate Reflects(q: Question, t: Tally, n: Notes) {
    && n.provenNames == Declared(q) + Names(q.bindings, t.proven)
    && n.provenExports == ProvenExports(q, t)
    && n.separateNames == q.independent + Names(q.bindings, t.separate)
    && n.separateExports == SeparateExports(q, t)
    && n.qualifiers == Qualifiers(q.bindings, t.separate)
    && n.reached == t.proven + t.separate
    && n.provenUris == Uris(q.bindings, t.proven)
  }

  lemma NamesGrow(bs: seq<Binding>, s: set<nat>, i: nat)
    requires i < |bs|
    ensures Names(bs, s + {i}) == Names(bs, s) + NamesOf(bs[i])
    ensures Uris(bs, s + {i}) == Uris(bs, s) + {bs[i].uri}
  {
  }

  lemma QualifiersGrow(bs: seq<Binding>, s: set<nat>, i: nat)
    requires i < |bs|
    ensures Qualifiers(bs, s + {i}) == Qualifiers(bs, s) + if Terminal(bs[i]) then {Local(bs[i])} else {}
  {
  }

  function RecordProof(n: Notes, b: Binding, i: nat): Notes {
    n.(reached := n.reached + {i}, provenUris := n.provenUris + {b.uri}, provenNames := n.provenNames + NamesOf(b),
       provenExports := if b.kind == ReExport then n.provenExports + {Local(b)} else n.provenExports)
  }

  function RecordSeparation(n: Notes, b: Binding, i: nat): Notes {
    n.(reached := n.reached + {i}, separateNames := n.separateNames + NamesOf(b),
       separateExports := if b.kind == ReExport then n.separateExports + {Local(b)} else n.separateExports)
  }

  lemma ProofReflects(q: Question, t: Tally, n: Notes, i: nat)
    requires i < |q.bindings| && Reflects(q, t, n)
    ensures Reflects(q, t.(proven := t.proven + {i}), RecordProof(n, q.bindings[i], i))
  {
    NamesGrow(q.bindings, t.proven, i);
    ExportsGrow(q.bindings, t.proven, i);
  }

  lemma SeparationReflects(q: Question, t: Tally, n: Notes, i: nat)
    requires i < |q.bindings| && Reflects(q, t, n) && !Terminal(q.bindings[i])
    ensures Reflects(q, t.(separate := t.separate + {i}), RecordSeparation(n, q.bindings[i], i))
  {
    NamesGrow(q.bindings, t.separate, i);
    ExportsGrow(q.bindings, t.separate, i);
    QualifiersGrow(q.bindings, t.separate, i);
  }

  lemma TerminalReflects(q: Question, t: Tally, n: Notes, i: nat)
    requires i < |q.bindings| && Reflects(q, t, n) && Terminal(q.bindings[i])
    ensures Reflects(q, t.(separate := t.separate + {i}),
                     RecordSeparation(n.(qualifiers := n.qualifiers + {Local(q.bindings[i])}), q.bindings[i], i))
  {
    NamesGrow(q.bindings, t.separate, i);
    ExportsGrow(q.bindings, t.separate, i);
    QualifiersGrow(q.bindings, t.separate, i);
  }

  // ----- The second loop -----

  method VisitBinding(q: Question, possible: set<nat>, known: set<string>, n: Notes, i: nat, ghost t: Tally)
    returns (after: Notes)
    requires i < |q.bindings| && known == Known(q) && Reflects(q, t, n)
    ensures Reflects(q, Visit(q, possible, t, i), after)
  {
    var b := q.bindings[i];
    if b.resolution == External && b.terminal.Some? {
      TerminalReflects(q, t, n, i);
      return RecordSeparation(n.(qualifiers := n.qualifiers + {Local(b)}), b, i);
    }
    var candidates := RelativeSourceUriCandidates(b.uri, b.specifier);
    if b.kind == Import && b.resolution == Unresolved && candidates.Some? {
      SeparationReflects(q, t, n, i);
      return RecordSeparation(n, b, i);
    }
    if b.resolution == Ambiguous && i !in possible {
      SeparationReflects(q, t, n, i);
      return RecordSeparation(n, b, i);
    }
    if b.source.None? || b.resolution != Unique { return n; }
    if b.source.value !in known {
      SeparationReflects(q, t, n, i);
      return RecordSeparation(n, b, i);
    }
    var site := Site(b.source.value, b.importedName);
    if (site in n.provenExports) == (site in n.separateExports) { return n; }
    if site in n.provenExports {
      ProofReflects(q, t, n, i);
      after := RecordProof(n, b, i);
    } else {
      SeparationReflects(q, t, n, i);
      after := RecordSeparation(n, b, i);
    }
  }

  /** Visiting a binding that has a verdict changes nothing. */
  lemma ReachedIsFinal(q: Question, possible: set<nat>, t: Tally, i: nat)
    requires i < |q.bindings| && Judged(q, possible, t) && t.proven !! t.separate && i in t.proven + t.separate
    ensures Visit(q, possible, t, i) == t
  {
    if i in t.proven {
      assert t.proven + {i} == t.proven;
    } else {
      assert t.separate + {i} == t.separate;
    }
  }

  function Reach(t: Tally): nat { |t.proven + t.separate| }

  predicate Sane(q: Question, possible: set<nat>, t: Tally) {
    Judged(q, possible, t) && t.proven !! t.separate
  }

  predicate Still(q: Question, possible: set<nat>, t: Tally, n: nat) {
    forall k: nat :: k < n && k < |q.bindings| ==> Visit(q, possible, t, k) == t
  }

  /** A pass that began at `s` has come to `t`. */
  predicate Progress(q: Question, possible: set<nat>, s: Tally, t: Tally, n: nat) {
    Reach(t) > Reach(s) || (t == s && Still(q, possible, s, n))
  }

  lemma VisitReaches(q: Question, possible: set<nat>, t: Tally, n: nat)
    requires n < |q.bindings| && Sane(q, possible, t)
    ensures Visit(q, possible, t, n) == t || Reach(Visit(q, possible, t, n)) > Reach(t)
  {
    if n in t.proven + t.separate {
      ReachedIsFinal(q, possible, t, n);
    } else {
      var reached := t.proven + t.separate;
      assert |reached + {n}| == |reached| + 1;
      assert (t.proven + {n}) + t.separate == reached + {n};
      assert t.proven + (t.separate + {n}) == reached + {n};
    }
  }

  lemma VisitProgresses(q: Question, possible: set<nat>, s: Tally, t: Tally, n: nat, after: Tally)
    requires n < |q.bindings| && after == Visit(q, possible, t, n)
    requires after == t || Reach(after) > Reach(t)
    requires Progress(q, possible, s, t, n)
    ensures Progress(q, possible, s, after, n + 1)
  {
  }

  lemma AfterExtends(q: Question, possible: set<nat>, order: seq<nat>, i: nat, n: nat)
    requires n <= |order| && Visits(q, order) && i < |q.bindings|
    ensures After(q, possible, order + [i], n) == After(q, possible, order, n)
  {
    if n > 0 { AfterExtends(q, possible, order, i, n - 1); }
  }

  ghost predicate Reached(q: Question, possible: set<nat>, order: seq<nat>, t: Tally) {
    Visits(q, order) && t == After(q, possible, order, |order|)
  }

  lemma ReachedExtends(q: Question, possible: set<nat>, order: seq<nat>, t: Tally, i: nat)
    requires Reached(q, possible, order, t) && i < |q.bindings|
    ensures Reached(q, possible, order + [i], Visit(q, possible, t, i))
  {
    AfterExtends(q, possible, order, i, |order|);
  }

  method ClassifyPass(q: Question, possible: set<nat>, known: set<string>, before: Notes,
                      ghost s: Tally, ghost from: seq<nat>)
    returns (n: Notes, ghost t: Tally, ghost order: seq<nat>)
    requires known == Known(q) && Reflects(q, s, before) && Reached(q, possible, from, s) && Sane(q, possible, s)
    ensures Reflects(q, t, n) && Reached(q, possible, order, t) && Sane(q, possible, t)
    ensures Progress(q, possible, s, t, |q.bindings|)
  {
    n, t, order := before, s, from;
    for i := 0 to |q.bindings|
      invariant Reflects(q, t, n) && Reached(q, possible, order, t) && Sane(q, possible, t)
      invariant Progress(q, possible, s, t, i)
    {
      n := VisitBinding(q, possible, known, n, i, t);
      VisitReaches(q, possible, t, i);
      VisitKeepsJudged(q, possible, t, i);
      VisitProgresses(q, possible, s, t, i, Visit(q, possible, t, i));
      ReachedExtends(q, possible, order, t, i);
      t, order := Visit(q, possible, t, i), order + [i];
    }
  }

  lemma ReachIsSmall(q: Question, possible: set<nat>, t: Tally)
    requires Judged(q, possible, t)
    ensures Reach(t) <= |q.bindings|
  {
    InsideIsSmall(q, t.proven + t.separate);
  }

  method InitialNotes(q: Question) returns (n: Notes)
    ensures Reflects(q, Tally({}, {}), n)
  {
    n := Notes(Declared(q), {Origin(q)}, q.independent, q.independent, {}, {}, {});
  }

  /** The tables record verdicts that some visits reach and that no further visit changes. */
  ghost predicate Outcome(q: Question, possible: set<nat>, n: Notes) {
    exists order, t :: Reached(q, possible, order, t) && Settled(q, possible, t) && Reflects(q, t, n)
  }

  /** The second loop ends, on verdicts that no further visit changes. */
  method Classify(q: Question, possible: set<nat>) returns (n: Notes)
    ensures Outcome(q, possible, n)
  {
    var known := Known(q);
    n := InitialNotes(q);
    ghost var t: Tally, order: seq<nat> := Tally({}, {}), [];
    ReachIsSmall(q, possible, t);
    while true
      invariant Reflects(q, t, n) && Reached(q, possible, order, t) && Sane(q, possible, t)
      invariant Reach(t) <= |q.bindings|
      decreases |q.bindings| - Reach(t)
    {
      var before := |n.reached|;
      n, t, order := ClassifyPass(q, possible, known, n, t, order);
      ReachIsSmall(q, possible, t);
      if |n.reached| == before { break; }
    }
  }

  // ----- The answer -----

  datatype Answer = Answer(complete: bool, identity: set<string>, narrowed: set<string>)

  predicate IsProven(n: Notes, o: Occurrence) { Site(o.uri, o.name) in n.provenNames }

  predicate IsSeparate(q: Question, n: Notes, o: Occurrence) {
    || (o.qualified == Some(false) && Site(o.uri, o.name) in n.separateNames)
    || (Site(o.uri, o.name) in q.independent && o.qualified == Some(false))
    || (o.qualified == Some(true) && o.qualifier.Some? && Site(o.uri, o.qualifier.value) in n.qualifiers)
  }

  function ConcludeDefault(q: Question, possible: set<nat>, n: Notes): Answer {
    var identity := n.provenUris + {q.uri};
    var all := identity + Uris(q.bindings, possible - n.reached);
    var narrowed := if |all| <= q.limit then all else {};
    if !(possible <= n.reached) || |identity| > q.limit then Answer(false, {}, narrowed)
    else Answer(true, identity, narrowed)
  }

  function IdentityUris(q: Question, n: Notes): set<string> {
    set o | o in q.occurrences && IsProven(n, o) :: o.uri
  }

  function NarrowedUris(q: Question, n: Notes): set<string> {
    (set o | o in q.occurrences && !IsSeparate(q, n, o) :: o.uri) + {q.uri}
  }

  function AllUris(q: Question): set<string> {
    (set o | o in q.occurrences :: o.uri) + {q.uri}
  }

  predicate Classified(q: Question, n: Notes) {
    |n.reached| == |q.bindings| && forall o :: o in q.occurrences ==> IsProven(n, o) || IsSeparate(q, n, o)
  }

  function ConcludeNamed(q: Question, n: Notes): Answer {
    var some := NarrowedUris(q, n);
    var narrowed := if |some| < |AllUris(q)| && |some| <= q.limit then some else {};
    if !Classified(q, n) || |IdentityUris(q, n)| > q.limit then Answer(false, {}, narrowed)
    else Answer(true, IdentityUris(q, n), narrowed)
  }

  function Conclude(q: Question, possible: set<nat>, n: Notes): Answer {
    if q.exported == "default" then ConcludeDefault(q, possible, n) else ConcludeNamed(q, n)
  }

  // ----- What a complete answer claims -----

  lemma {:induction false} FullSetHoldsAll(s: set<nat>, n: nat, i: nat)
    requires (forall k :: k in s ==> k < n) && |s| == n && i < n
    ensures i in s
  {
    if i !in s { Bounded(s + {i}, n); }
  }

  /** A complete default answer has classified every possible binding, and narrowing gave
      up nothing: the narrowed documents are the identity documents. */
  lemma CompleteDefault(q: Question, possible: set<nat>, t: Tally, n: Notes)
    requires q.exported == "default" && Reflects(q, t, n) && Conclude(q, possible, n).complete
    ensures var a := Conclude(q, possible, n);
      && possible <= t.proven + t.separate
      && a.identity == Uris(q.bindings, t.proven) + {q.uri}
      && a.narrowed == a.identity && |a.identity| <= q.limit
  {
    assert possible - n.reached == {};
    assert Uris(q.bindings, {}) == {};
  }

  /** A complete answer for a named export has a verdict on every binding and every
      occurrence, and narrows to identity documents and the declaration's. */
  lemma CompleteNamed(q: Question, possible: set<nat>, t: Tally, n: Notes)
    requires q.exported != "default" && Reflects(q, t, n) && Judged(q, possible, t)
    requires Conclude(q, possible, n).complete
    ensures var a := Conclude(q, possible, n);
      && (forall i: nat :: i < |q.bindings| ==> i in t.proven || i in t.separate)
      && Classified(q, n)
      && a.identity == IdentityUris(q, n) && |a.identity| <= q.limit
      && a.narrowed - {q.uri} <= a.identity
  {
    var reached := t.proven + t.separate;
    forall i: nat | i < |q.bindings| ensures i in t.proven || i in t.separate {
      FullSetHoldsAll(reached, |q.bindings|, i);
    }
    NarrowedIsIdentity(q, n);
  }

  lemma NarrowedIsIdentity(q: Question, n: Notes)
    requires Classified(q, n)
    ensures NarrowedUris(q, n) - {q.uri} <= IdentityUris(q, n)
  {
    forall uri | uri in NarrowedUris(q, n) && uri != q.uri ensures uri in IdentityUris(q, n) {
      var o :| o in q.occurrences && !IsSeparate(q, n, o) && o.uri == uri;
      assert IsProven(n, o);
    }
  }
}
