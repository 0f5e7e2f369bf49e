/** When the order of visits matters. */
module ReferenceOrder {
  // The prover's verdicts depend on the order of the bindings exactly when a name is disputed.
  //
  // Both closures are computed from the input alone. The proving closure starts at the
  // declaration, the separating one at what is apart or declared independently. They
  // bound every tally, and where no imported name lies in both they are every tally.

  import opened ReferenceBindings
  import opened ReferenceProver
  import opened ReferenceAnswer

  // ----- The two closures -----

  /** A binding with one known source, whose verdict depends on the tables. */
  predicate Ordinary(q: Question, possible: set<nat>, i: nat) {
    && i < |q.bindings| && q.bindings[i].resolution == Unique && q.bindings[i].source.Some?
    && !Apart(q, possible, i)
  }

  predicate ReExports(q: Question, i: nat) { i < |q.bindings| && q.bindings[i].kind == ReExport }

  /** Binding `k` of the chain imports what the one before it re-exports. */
  predicate Follows(q: Question, possible: set<nat>, chain: seq<nat>, k: nat)
    requires 1 <= k < |chain|
  {
    && Ordinary(q, possible, chain[k]) && ReExports(q, chain[k - 1])
    && Imported(q, chain[k]) == Local(q.bindings[chain[k - 1]])
  }

  /** From the declaration, over names that no independent declaration has. */
  predicate Proving(q: Question, possible: set<nat>, chain: seq<nat>) {
    && chain != [] && Ordinary(q, possible, chain[0]) && Imported(q, chain[0]) == Origin(q)
    && (forall k :: 1 <= k < |chain| ==> Follows(q, possible, chain, k))
    && forall k :: 0 <= k < |chain| ==> Named(q, chain[k]) && Imported(q, chain[k]) !in q.independent
  }

  predicate Named(q: Question, i: nat) { i < |q.bindings| && q.bindings[i].source.Some? }

  /** What separates a binding by itself. */
  predicate Separated(q: Question, possible: set<nat>, i: nat) {
    && i < |q.bindings|
    && (Apart(q, possible, i)
        || (Ordinary(q, possible, i) && Imported(q, i) in q.independent && Imported(q, i) != Origin(q)))
  }

  /** From a binding separated by itself, over names other than the declaration's. */
  predicate Separating(q: Question, possible: set<nat>, chain: seq<nat>) {
    && chain != [] && Separated(q, possible, chain[0])
    && forall k :: 1 <= k < |chain| ==> FollowsApart(q, possible, chain, k)
  }

  predicate FollowsApart(q: Question, possible: set<nat>, chain: seq<nat>, k: nat)
    requires 1 <= k < |chain|
  {
    Follows(q, possible, chain, k) && Imported(q, chain[k]) != Origin(q)
  }

  ghost predicate Provable(q: Question, possible: set<nat>, i: nat) {
    exists chain :: Proving(q, possible, chain) && Last(chain) == i
  }

  ghost predicate Separable(q: Question, possible: set<nat>, i: nat) {
    exists chain :: Separating(q, possible, chain) && Last(chain) == i
  }

  ghost function ProvableSet(q: Question, possible: set<nat>): set<nat> {
    set i: nat | i < |q.bindings| && Provable(q, possible, i)
  }

  ghost predicate ProvableSite(q: Question, possible: set<nat>, s: Site) {
    s == Origin(q) || exists j: nat :: ReExports(q, j) && Provable(q, possible, j) && s == Local(q.bindings[j])
  }

  ghost predicate SeparableSite(q: Question, possible: set<nat>, s: Site) {
    s in q.independent || exists j: nat :: ReExports(q, j) && Separable(q, possible, j) && s == Local(q.bindings[j])
  }

  /** The binding imports a name in both closures. The declaration's own name, when it is
      also declared independently, is skipped in every order and disputes nothing. */
  ghost predicate Disputed(q: Question, possible: set<nat>, i: nat) {
    && Ordinary(q, possible, i)
    && ProvableSite(q, possible, Imported(q, i)) && SeparableSite(q, possible, Imported(q, i))
    && !(Imported(q, i) == Origin(q) && Origin(q) in q.independent)
  }

  // ----- Chains grow -----

  lemma ProvingGrows(q: Question, possible: set<nat>, j: nat, i: nat)
    requires Provable(q, possible, j) && ReExports(q, j) && Ordinary(q, possible, i)
    requires Imported(q, i) == Local(q.bindings[j]) && Imported(q, i) !in q.independent
    ensures Provable(q, possible, i)
  {
    var chain :| Proving(q, possible, chain) && Last(chain) == j;
    var longer := chain + [i];
    forall k | 1 <= k < |longer| ensures Follows(q, possible, longer, k) {
      if k < |chain| { assert Follows(q, possible, chain, k); }
    }
    forall k | 0 <= k < |longer| ensures Named(q, longer[k]) && Imported(q, longer[k]) !in q.independent {
      if k < |chain| { assert longer[k] == chain[k]; }
    }
    assert Proving(q, possible, longer) && Last(longer) == i;
  }

  lemma SeparatingGrows(q: Question, possible: set<nat>, j: nat, i: nat)
    requires Separable(q, possible, j) && ReExports(q, j) && Ordinary(q, possible, i)
    requires Imported(q, i) == Local(q.bindings[j]) && Imported(q, i) != Origin(q)
    ensures Separable(q, possible, i)
  {
    var chain :| Separating(q, possible, chain) && Last(chain) == j;
    SeparatingExtends(q, possible, chain, i);
    assert Last(chain + [i]) == i;
  }

  lemma SeparatingExtends(q: Question, possible: set<nat>, chain: seq<nat>, i: nat)
    requires Separating(q, possible, chain) && ReExports(q, Last(chain)) && Ordinary(q, possible, i)
    requires Imported(q, i) == Local(q.bindings[Last(chain)]) && Imported(q, i) != Origin(q)
    ensures Separating(q, possible, chain + [i])
  {
    var longer := chain + [i];
    assert longer[0] == chain[0];
    forall k | 1 <= k < |longer| ensures FollowsApart(q, possible, longer, k) {
      if k < |chain| {
        assert FollowsApart(q, possible, chain, k) && longer[k] == chain[k] && longer[k - 1] == chain[k - 1];
      }
    }
  }

  // ----- The closures bound every tally -----

  ghost predicate Bounded(q: Question, possible: set<nat>, t: Tally) {
    && (forall i :: i in t.proven ==> Provable(q, possible, i))
    && forall i :: i in t.separate ==> Separable(q, possible, i)
  }

  lemma ExportsAreProvable(q: Question, possible: set<nat>, t: Tally, s: Site)
    requires Bounded(q, possible, t) && s in ProvenExports(q, t)
    ensures ProvableSite(q, possible, s)
  {
    if s != Origin(q) {
      var j: nat :| j in t.proven && j < |q.bindings| && q.bindings[j].kind == ReExport && s == Local(q.bindings[j]);
      assert ReExports(q, j);
    }
  }

  lemma ExportsAreSeparable(q: Question, possible: set<nat>, t: Tally, s: Site)
    requires Bounded(q, possible, t) && s in SeparateExports(q, t)
    ensures SeparableSite(q, possible, s)
  {
    if s !in q.independent {
      var j: nat :| j in t.separate && j < |q.bindings| && q.bindings[j].kind == ReExport && s == Local(q.bindings[j]);
      assert ReExports(q, j);
    }
  }

  lemma ProofIsBounded(q: Question, possible: set<nat>, t: Tally, i: nat)
    requires Bounded(q, possible, t) && i < |q.bindings| && VerdictOn(q, possible, t, i).Proves?
    ensures Provable(q, possible, i)
  {
    var s := Imported(q, i);
    assert s !in q.independent;
    ExportsAreProvable(q, possible, t, s);
    if s == Origin(q) {
      assert Proving(q, possible, [i]) && Last([i]) == i;
    } else {
      var j: nat :| ReExports(q, j) && Provable(q, possible, j) && s == Local(q.bindings[j]);
      ProvingGrows(q, possible, j, i);
    }
  }

  lemma SeparationIsBounded(q: Question, possible: set<nat>, t: Tally, i: nat)
    requires Bounded(q, possible, t) && i < |q.bindings| && VerdictOn(q, possible, t, i).Separates?
    ensures Separable(q, possible, i)
  {
    if Apart(q, possible, i) {
      assert Separating(q, possible, [i]) && Last([i]) == i;
    } else {
      var s := Imported(q, i);
      assert s != Origin(q);
      ExportsAreSeparable(q, possible, t, s);
      if s in q.independent {
        assert Separating(q, possible, [i]) && Last([i]) == i;
      } else {
        var j: nat :| ReExports(q, j) && Separable(q, possible, j) && s == Local(q.bindings[j]);
        SeparatingGrows(q, possible, j, i);
      }
    }
  }

  lemma {:induction false} RunsAreBounded(q: Question, possible: set<nat>, order: seq<nat>, n: nat)
    requires n <= |order| && Visits(q, order)
    ensures Bounded(q, possible, After(q, possible, order, n))
  {
    if n > 0 {
      RunsAreBounded(q, possible, order, n - 1);
      var t, i := After(q, possible, order, n - 1), order[n - 1];
      if VerdictOn(q, possible, t, i).Proves? { ProofIsBounded(q, possible, t, i); }
      if VerdictOn(q, possible, t, i).Separates? { SeparationIsBounded(q, possible, t, i); }
    }
  }

  // ----- Without a dispute every settled tally is the closures -----

  ghost predicate Undisputed(q: Question, possible: set<nat>) {
    forall i: nat :: !Disputed(q, possible, i)
  }

  lemma SettledVerdict(q: Question, possible: set<nat>, t: Tally, i: nat)
    requires Settled(q, possible, t) && i < |q.bindings|
    ensures VerdictOn(q, possible, t, i).Proves? ==> i in t.proven
    ensures VerdictOn(q, possible, t, i).Separates? ==> i in t.separate
  {
    assert Visit(q, possible, t, i) == t;
  }

  /** An undisputed name is never in both tables, unless it is skipped in every order. */
  lemma NeverBoth(q: Question, possible: set<nat>, t: Tally, i: nat, s: Site)
    requires Undisputed(q, possible) && Bounded(q, possible, t) && Ordinary(q, possible, i) && s == Imported(q, i)
    requires s != Origin(q) || s !in q.independent
    ensures s !in ProvenExports(q, t) || s !in SeparateExports(q, t)
  {
    assert s in ProvenExports(q, t) ==> ProvableSite(q, possible, s) by {
      if s in ProvenExports(q, t) { ExportsAreProvable(q, possible, t, s); }
    }
    assert s in SeparateExports(q, t) ==> SeparableSite(q, possible, s) by {
      if s in SeparateExports(q, t) { ExportsAreSeparable(q, possible, t, s); }
    }
    assert !Disputed(q, possible, i);
  }

  lemma ProvenBySite(q: Question, possible: set<nat>, t: Tally, i: nat, s: Site)
    requires Settled(q, possible, t) && Ordinary(q, possible, i) && s == Imported(q, i)
    requires s in ProvenExports(q, t) && s !in SeparateExports(q, t)
    ensures i in t.proven
  {
    SettledVerdict(q, possible, t, i);
  }

  lemma SeparateBySite(q: Question, possible: set<nat>, t: Tally, i: nat, s: Site)
    requires Settled(q, possible, t) && Ordinary(q, possible, i) && s == Imported(q, i)
    requires s in SeparateExports(q, t) && s !in ProvenExports(q, t)
    ensures i in t.separate
  {
    SettledVerdict(q, possible, t, i);
  }

  lemma ReExported(q: Question, t: Tally, j: nat)
    requires ReExports(q, j)
    ensures j in t.proven ==> Local(q.bindings[j]) in ProvenExports(q, t)
    ensures j in t.separate ==> Local(q.bindings[j]) in SeparateExports(q, t)
  {
  }

  lemma {:induction false} ChainIsProven(q: Question, possible: set<nat>, t: Tally, chain: seq<nat>, k: nat)
    requires Undisputed(q, possible) && Bounded(q, possible, t) && Settled(q, possible, t)
    requires Proving(q, possible, chain) && k < |chain|
    ensures chain[k] in t.proven
  {
    var i := chain[k];
    if k > 0 {
      ChainIsProven(q, possible, t, chain, k - 1);
      assert Follows(q, possible, chain, k);
      ReExported(q, t, chain[k - 1]);
    }
    NeverBoth(q, possible, t, i, Imported(q, i));
    ProvenBySite(q, possible, t, i, Imported(q, i));
  }

  lemma {:induction false} ChainIsSeparate(q: Question, possible: set<nat>, t: Tally, chain: seq<nat>, k: nat)
    requires Undisputed(q, possible) && Bounded(q, possible, t) && Settled(q, possible, t)
    requires Separating(q, possible, chain) && k < |chain|
    ensures chain[k] in t.separate
  {
    var i := chain[k];
    if k > 0 {
      ChainIsSeparate(q, possible, t, chain, k - 1);
      assert FollowsApart(q, possible, chain, k);
      ReExported(q, t, chain[k - 1]);
      SeparateImport(q, possible, t, i);
    } else if Apart(q, possible, i) {
      SettledVerdict(q, possible, t, i);
    } else {
      SeparateImport(q, possible, t, i);
    }
  }

  lemma SeparateImport(q: Question, possible: set<nat>, t: Tally, i: nat)
    requires Undisputed(q, possible) && Bounded(q, possible, t) && Settled(q, possible, t)
    requires Ordinary(q, possible, i) && Imported(q, i) in SeparateExports(q, t) && Imported(q, i) != Origin(q)
    ensures i in t.separate
  {
    NeverBoth(q, possible, t, i, Imported(q, i));
    SeparateBySite(q, possible, t, i, Imported(q, i));
  }

  /** Without a dispute the verdicts are the closures, whatever the order. */
  lemma UndisputedVerdicts(q: Question, possible: set<nat>, order: seq<nat>, t: Tally)
    requires Undisputed(q, possible) && Reached(q, possible, order, t) && Settled(q, possible, t)
    ensures forall i :: i in t.proven <==> Provable(q, possible, i)
    ensures forall i :: i in t.separate <==> Separable(q, possible, i)
  {
    RunsAreBounded(q, possible, order, |order|);
    forall i | Provable(q, possible, i) ensures i in t.proven {
      var chain :| Proving(q, possible, chain) && Last(chain) == i;
      ChainIsProven(q, possible, t, chain, |chain| - 1);
    }
    forall i | Separable(q, possible, i) ensures i in t.separate {
      var chain :| Separating(q, possible, chain) && Last(chain) == i;
      ChainIsSeparate(q, possible, t, chain, |chain| - 1);
    }
  }

  // ----- A dispute is settled either way -----

  lemma {:induction false} AfterPrefix(q: Question, possible: set<nat>, a: seq<nat>, b: seq<nat>, n: nat)
    requires n <= |a| && a <= b && Visits(q, a) && Visits(q, b)
    ensures After(q, possible, a, n) == After(q, possible, b, n)
  {
    if n > 0 { AfterPrefix(q, possible, a, b, n - 1); }
  }

  /** Replaying only a proving chain proves it, and nothing is separate. */
  lemma {:induction false} ProvingReplays(q: Question, possible: set<nat>, chain: seq<nat>, n: nat)
    requires Proving(q, possible, chain) && n <= |chain|
    ensures Visits(q, chain)
    ensures var t := After(q, possible, chain, n);
      t.separate == {} && (forall i :: i in t.proven <==> i in chain[..n])
  {
    assert forall k :: 0 <= k < |chain| ==> Named(q, chain[k]);
    if n > 0 {
      ProvingReplays(q, possible, chain, n - 1);
      var t, i := After(q, possible, chain, n - 1), chain[n - 1];
      if n > 1 {
        assert Follows(q, possible, chain, n - 1) && chain[n - 2] in chain[..n - 1];
      }
      assert Imported(q, i) in ProvenExports(q, t);
      assert Exports(q.bindings, {}) == {};
      assert VerdictOn(q, possible, t, i).Proves?;
      assert chain[..n] == chain[..n - 1] + [i];
    }
  }

  /** Replaying only a separating chain separates it, and nothing is proven. */
  lemma {:induction false} SeparatingReplays(q: Question, possible: set<nat>, chain: seq<nat>, n: nat)
    requires Separating(q, possible, chain) && n <= |chain|
    ensures Visits(q, chain)
    ensures var t := After(q, possible, chain, n);
      t.proven == {} && (forall i :: i in t.separate <==> i in chain[..n])
  {
    SeparatingIsInRange(q, possible, chain);
    if n > 0 {
      SeparatingReplays(q, possible, chain, n - 1);
      assert chain[..n] == chain[..n - 1] + [chain[n - 1]];
      if n > 1 { assert chain[n - 2] in chain[..n - 1]; }
      SeparatingStep(q, possible, chain, After(q, possible, chain, n - 1), n - 1);
    }
  }

  lemma SeparatingStep(q: Question, possible: set<nat>, chain: seq<nat>, t: Tally, k: nat)
    requires Separating(q, possible, chain) && k < |chain| && chain[k] < |q.bindings|
    requires t.proven == {} && (k > 0 ==> chain[k - 1] in t.separate)
    ensures Visit(q, possible, t, chain[k]) == t.(separate := t.separate + {chain[k]})
  {
    EmptyExports(q, t);
    if k > 0 {
      assert FollowsApart(q, possible, chain, k);
      ReExported(q, t, chain[k - 1]);
      SeparatedNext(q, possible, t, chain[k], Imported(q, chain[k]));
    } else if !Apart(q, possible, chain[0]) {
      SeparatedNext(q, possible, t, chain[0], Imported(q, chain[0]));
    }
  }

  lemma SeparatingIsInRange(q: Question, possible: set<nat>, chain: seq<nat>)
    requires Separating(q, possible, chain)
    ensures Visits(q, chain)
  {
    forall k | 0 <= k < |chain| ensures chain[k] < |q.bindings| {
      if k > 0 { assert FollowsApart(q, possible, chain, k); }
    }
  }

  lemma VisitAdvances(q: Question, possible: set<nat>, order: seq<nat>, t: Tally, i: nat)
    requires Reached(q, possible, order, t) && i < |q.bindings| && Visit(q, possible, t, i) != t
    ensures Reached(q, possible, order + [i], Visit(q, possible, t, i))
    ensures Reach(t) < Reach(Visit(q, possible, t, i)) <= |q.bindings|
  {
    RunsAreJudged(q, possible, order, |order|);
    VisitReaches(q, possible, t, i);
    VisitKeepsJudged(q, possible, t, i);
    ReachIsSmall(q, possible, Visit(q, possible, t, i));
    ReachedExtends(q, possible, order, t, i);
  }

  /** Any visits can be followed by more until nothing changes. */
  lemma {:induction false} Settles(q: Question, possible: set<nat>, order: seq<nat>, t: Tally)
    returns (whole: seq<nat>, last: Tally)
    requires Reached(q, possible, order, t)
    ensures order <= whole && Reached(q, possible, whole, last) && Settled(q, possible, last)
    decreases |q.bindings| - Reach(t)
  {
    if Settled(q, possible, t) {
      whole, last := order, t;
    } else {
      var i: nat :| i < |q.bindings| && Visit(q, possible, t, i) != t;
      VisitAdvances(q, possible, order, t, i);
      whole, last := Settles(q, possible, order + [i], Visit(q, possible, t, i));
    }
  }

  // ----- Passes over the bindings in one order -----

  predicate Distinct(order: seq<nat>) {
    forall i, j :: 0 <= i < j < |order| ==> order[i] != order[j]
  }

  /** All bindings, each once. */
  predicate Permutation(q: Question, order: seq<nat>) {
    Visits(q, order) && Distinct(order) && forall i: nat :: i < |q.bindings| ==> i in order
  }

  function Passes(order: seq<nat>, k: nat): seq<nat> { if k == 0 then [] else Passes(order, k - 1) + order }

  /** A settled tally that passes over the bindings in one order reach. */
  ghost predicate Final(q: Question, possible: set<nat>, t: Tally) {
    && Settled(q, possible, t)
    && exists order, k: nat :: Permutation(q, order) && Reached(q, possible, Passes(order, k), t)
  }

  /** The visits that recorded something: each binding at most once. */
  lemma {:induction false} Effective(q: Question, possible: set<nat>, order: seq<nat>, n: nat)
    returns (front: seq<nat>)
    requires n <= |order| && Visits(q, order)
    ensures Reached(q, possible, front, After(q, possible, order, n)) && Distinct(front)
    ensures var t := After(q, possible, order, n); forall i :: i in front ==> i in t.proven + t.separate
  {
    front := [];
    if n > 0 {
      front := Effective(q, possible, order, n - 1);
      var t, i := After(q, possible, order, n - 1), order[n - 1];
      RunsAreJudged(q, possible, order, n - 1);
      if Visit(q, possible, t, i) != t {
        if i in front { ReachedIsFinal(q, possible, t, i); }
        ReachedExtends(q, possible, front, t, i);
        front := front + [i];
      }
    }
  }

  /** The bindings before `n` that `front` leaves out. */
  function Others(front: seq<nat>, n: nat): seq<nat> {
    if n == 0 then [] else Others(front, n - 1) + if n - 1 in front then [] else [n - 1]
  }

  lemma {:induction false} OthersComplete(front: seq<nat>, n: nat)
    ensures Distinct(Others(front, n))
    ensures forall i: nat :: i in Others(front, n) <==> i < n && i !in front
  {
    if n > 0 { OthersComplete(front, n - 1); }
  }

  lemma FrontCompletes(q: Question, front: seq<nat>, order: seq<nat>)
    requires Visits(q, front) && Distinct(front) && order == front + Others(front, |q.bindings|)
    ensures Permutation(q, order)
  {
    var rest := Others(front, |q.bindings|);
    OthersComplete(front, |q.bindings|);
    forall k | 0 <= k < |rest| ensures rest[k] < |q.bindings| && rest[k] !in front { assert rest[k] in rest; }
    forall i, j | 0 <= i < j < |order| ensures order[i] != order[j] {
      if i < |front| <= j { assert order[i] in front && order[j] == rest[j - |front|]; }
    }
    forall i: nat | i < |q.bindings| ensures i in order { assert i in front || i in rest; }
  }

  lemma {:induction false} SettledStays(q: Question, possible: set<nat>, a: seq<nat>, b: seq<nat>, t: Tally, n: nat)
    requires Reached(q, possible, a, t) && Settled(q, possible, t) && Visits(q, b) && n <= |b|
    ensures Reached(q, possible, a + b[..n], t)
  {
    if n == 0 {
      assert a + b[..0] == a;
    } else {
      SettledStays(q, possible, a, b, t, n - 1);
      ReachedExtends(q, possible, a + b[..n - 1], t, b[n - 1]);
      assert a + b[..n] == a + b[..n - 1] + [b[n - 1]];
    }
  }

  /** What any visits settle on, one pass over the bindings in some order settles on. */
  lemma SettledIsFinal(q: Question, possible: set<nat>, order: seq<nat>, t: Tally)
    requires Reached(q, possible, order, t) && Settled(q, possible, t)
    ensures Final(q, possible, t)
  {
    var front := Effective(q, possible, order, |order|);
    var rest := Others(front, |q.bindings|);
    FrontCompletes(q, front, front + rest);
    assert Visits(q, rest) by {
      forall k | 0 <= k < |rest| ensures rest[k] < |q.bindings| { assert (front + rest)[|front| + k] == rest[k]; }
    }
    SettledStays(q, possible, front, rest, t, |rest|);
    assert rest[..|rest|] == rest;
    assert Passes(front + rest, 0) == [] && Passes(front + rest, 1) == [] + (front + rest) == front + rest;
  }

  lemma Completes(q: Question, possible: set<nat>, order: seq<nat>, t: Tally) returns (last: Tally)
    requires Reached(q, possible, order, t)
    ensures Final(q, possible, last) && Grows(t, last) && Sane(q, possible, last)
  {
    var whole;
    whole, last := Settles(q, possible, order, t);
    VerdictsNeverFlip(q, possible, whole, |order|, |whole|);
    AfterPrefix(q, possible, order, whole, |order|);
    RunsAreJudged(q, possible, whole, |whole|);
    SettledIsFinal(q, possible, whole, last);
  }

  /** While its name is in both tables a binding is skipped: nobody records it. */
  ghost predicate Stuck(q: Question, t: Tally, i: nat) {
    && i < |q.bindings| && q.bindings[i].source.Some?
    && Imported(q, i) in ProvenExports(q, t) && Imported(q, i) in SeparateExports(q, t)
    && i !in t.proven && i !in t.separate
  }

  lemma StuckStays(q: Question, possible: set<nat>, t: Tally, i: nat, j: nat)
    requires Stuck(q, t, i) && Ordinary(q, possible, i) && j < |q.bindings|
    ensures Stuck(q, Visit(q, possible, t, j), i)
  {
    GrowthOfExports(q, t, Visit(q, possible, t, j));
  }

  lemma {:induction false} StuckForGood(q: Question, possible: set<nat>, order: seq<nat>, m: nat, n: nat, i: nat)
    requires m <= n <= |order| && Visits(q, order) && Ordinary(q, possible, i)
    requires Stuck(q, After(q, possible, order, m), i)
    ensures Stuck(q, After(q, possible, order, n), i)
  {
    if m < n {
      StuckForGood(q, possible, order, m, n - 1, i);
      StuckStays(q, possible, After(q, possible, order, n - 1), i, order[n - 1]);
    }
  }

  lemma CompletesStuck(q: Question, possible: set<nat>, order: seq<nat>, t: Tally, i: nat) returns (last: Tally)
    requires Reached(q, possible, order, t) && Ordinary(q, possible, i) && Stuck(q, t, i)
    ensures Final(q, possible, last) && i !in last.proven && i !in last.separate
  {
    var whole;
    whole, last := Settles(q, possible, order, t);
    AfterPrefix(q, possible, order, whole, |order|);
    StuckForGood(q, possible, whole, |order|, |whole|, i);
    SettledIsFinal(q, possible, whole, last);
  }

  /** Visits after which exactly the proving side of a disputed name is recorded. */
  lemma ProvingSide(q: Question, possible: set<nat>, s: Site) returns (order: seq<nat>, t: Tally)
    requires ProvableSite(q, possible, s)
    ensures Reached(q, possible, order, t) && t.separate == {} && s in ProvenExports(q, t)
    ensures forall i :: i in t.proven ==> Named(q, i) && Imported(q, i) !in q.independent
  {
    order, t := [], Tally({}, {});
    if s != Origin(q) {
      var j: nat :| ReExports(q, j) && Provable(q, possible, j) && s == Local(q.bindings[j]);
      order :| Proving(q, possible, order) && Last(order) == j;
      ProvingReplays(q, possible, order, |order|);
      t := After(q, possible, order, |order|);
      assert order[..|order|] == order && j in order;
      ReExported(q, t, j);
    }
  }

  /** Visits after which exactly the separating side is recorded. */
  lemma SeparatingSide(q: Question, possible: set<nat>, s: Site) returns (order: seq<nat>, t: Tally)
    requires SeparableSite(q, possible, s)
    ensures Reached(q, possible, order, t) && t.proven == {} && s in SeparateExports(q, t)
    ensures forall i :: i in t.separate ==>
      i < |q.bindings| && (Apart(q, possible, i) || (Named(q, i) && Imported(q, i) != Origin(q)))
  {
    order, t := [], Tally({}, {});
    if s !in q.independent {
      var j: nat :| ReExports(q, j) && Separable(q, possible, j) && s == Local(q.bindings[j]);
      order :| Separating(q, possible, order) && Last(order) == j;
      SeparatingReplays(q, possible, order, |order|);
      t := After(q, possible, order, |order|);
      assert order[..|order|] == order && j in order;
      SeparatingMembers(q, possible, order);
      ReExported(q, t, j);
    }
  }

  lemma SeparatingMembers(q: Question, possible: set<nat>, chain: seq<nat>)
    requires Separating(q, possible, chain)
    ensures forall i :: i in chain ==>
      i < |q.bindings| && (Apart(q, possible, i) || (Named(q, i) && Imported(q, i) != Origin(q)))
  {
    forall i | i in chain
      ensures i < |q.bindings| && (Apart(q, possible, i) || (Named(q, i) && Imported(q, i) != Origin(q)))
    {
      var k :| 0 <= k < |chain| && chain[k] == i;
      if k > 0 { assert FollowsApart(q, possible, chain, k); }
    }
  }

  lemma ProvedNext(q: Question, possible: set<nat>, t: Tally, i: nat, s: Site)
    requires Ordinary(q, possible, i) && s == Imported(q, i)
    requires s in ProvenExports(q, t) && s !in SeparateExports(q, t)
    ensures Visit(q, possible, t, i) == t.(proven := t.proven + {i})
  {
  }

  lemma SeparatedNext(q: Question, possible: set<nat>, t: Tally, i: nat, s: Site)
    requires Ordinary(q, possible, i) && s == Imported(q, i)
    requires s in SeparateExports(q, t) && s !in ProvenExports(q, t)
    ensures Visit(q, possible, t, i) == t.(separate := t.separate + {i})
  {
  }

  lemma EmptyExports(q: Question, t: Tally)
    ensures t.proven == {} ==> ProvenExports(q, t) == {Origin(q)}
    ensures t.separate == {} ==> SeparateExports(q, t) == q.independent
  {
    assert Exports(q.bindings, {}) == {};
  }

  /** The proving side first: the importer is proven, or skipped for an independent name. */
  lemma ProvenFirst(q: Question, possible: set<nat>, i: nat) returns (last: Tally)
    requires Disputed(q, possible, i)
    ensures Final(q, possible, last) && i !in last.separate
    ensures Imported(q, i) !in q.independent ==> i in last.proven
  {
    var s := Imported(q, i);
    var order, t := ProvingSide(q, possible, s);
    EmptyExports(q, t);
    if s in q.independent {
      last := CompletesStuck(q, possible, order, t, i);
    } else {
      ProvedNext(q, possible, t, i, s);
      ReachedExtends(q, possible, order, t, i);
      last := Completes(q, possible, order + [i], t.(proven := t.proven + {i}));
    }
  }

  /** The separating side first: the importer is separate, or skipped for the declaration's
      own name. */
  lemma SeparateFirst(q: Question, possible: set<nat>, i: nat) returns (last: Tally)
    requires Disputed(q, possible, i)
    ensures Final(q, possible, last) && i !in last.proven
    ensures Imported(q, i) != Origin(q) ==> i in last.separate
  {
    var s := Imported(q, i);
    var order, t := SeparatingSide(q, possible, s);
    EmptyExports(q, t);
    if s == Origin(q) {
      last := CompletesStuck(q, possible, order, t, i);
    } else {
      SeparatedNext(q, possible, t, i, s);
      ReachedExtends(q, possible, order, t, i);
      last := Completes(q, possible, order + [i], t.(separate := t.separate + {i}));
    }
  }

  /** Repeated passes settle on the same verdicts in every order of the bindings exactly when
      no binding imports a disputed name; and over a disputed name that is neither the
      declaration's own nor declared independently, two orders settle on opposite verdicts. */
  lemma VerdictsIgnoreOrderExactly(q: Question, possible: set<nat>)
    ensures (forall s, t :: Final(q, possible, s) && Final(q, possible, t) ==> s == t) <==> Undisputed(q, possible)
    ensures forall i: nat ::
      (Disputed(q, possible, i) && Imported(q, i) != Origin(q) && Imported(q, i) !in q.independent) ==>
      exists s, t :: Final(q, possible, s) && Final(q, possible, t) && i in s.proven && i in t.separate
  {
    if Undisputed(q, possible) {
      forall s, t | Final(q, possible, s) && Final(q, possible, t)
        ensures s == t
      {
        UndisputedAgree(q, possible, s, t);
      }
    }
    forall i: nat | Disputed(q, possible, i)
      ensures exists s, t :: Final(q, possible, s) && Final(q, possible, t) && s != t
      ensures (Imported(q, i) != Origin(q) && Imported(q, i) !in q.independent) ==>
        exists s, t :: Final(q, possible, s) && Final(q, possible, t) && i in s.proven && i in t.separate
    {
      var s := ProvenFirst(q, possible, i);
      var t := SeparateFirst(q, possible, i);
      assert s != t;
    }
  }

  lemma UndisputedAgree(q: Question, possible: set<nat>, s: Tally, t: Tally)
    requires Undisputed(q, possible) && Final(q, possible, s) && Final(q, possible, t)
    ensures s == t
  {
    var a, m: nat :| Permutation(q, a) && Reached(q, possible, Passes(a, m), s);
    var b, n: nat :| Permutation(q, b) && Reached(q, possible, Passes(b, n), t);
    UndisputedVerdicts(q, possible, Passes(a, m), s);
    UndisputedVerdicts(q, possible, Passes(b, n), t);
  }
}
