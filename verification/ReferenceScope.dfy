/** What may refer to a declaration. */
module ReferenceScope {
  // `MayRefer` is computed from the bindings alone. It says what leads to the declaration in
  // some world of its scope: among all worlds, or among the coherent ones.

  import opened Options
  import opened ReferenceBindings
  import opened ReferenceProver
  import opened ReferenceWorlds

  datatype Scope = AllWorlds | CoherentWorlds

  ghost predicate Holds(q: Question, c: Scope, w: Sources) {
    World(q, w) && (c.CoherentWorlds? ==> Coherent(q, w))
  }

  // ----- The closure -----

  /** In some world the binding imports `s`. */
  predicate MayImport(q: Question, i: nat, s: Site)
    requires i < |q.bindings|
  {
    Plausible(q.bindings[i], Some(s.uri)) && q.bindings[i].importedName == s.name
  }

  /** In coherent worlds every other re-export of its name imports `s` with it. */
  predicate MayTake(q: Question, c: Scope, i: nat, s: Site)
    requires i < |q.bindings|
  {
    && MayImport(q, i, s)
    && (c.CoherentWorlds? ==> forall k: nat :: k < |q.bindings| && Twins(q, i, k) ==> MayImport(q, k, s))
  }

  /** In some world binding `i` imports what binding `j` re-exports. */
  predicate MayFeed(q: Question, c: Scope, j: nat, i: nat) {
    && j < |q.bindings| && i < |q.bindings| && q.bindings[j].kind == ReExport
    && MayTake(q, c, i, Local(q.bindings[j]))
  }

  /** By way of at most `n` imports. */
  predicate MayWithin(q: Question, c: Scope, i: nat, n: nat)
    decreases n, 0
  {
    n > 0 && i < |q.bindings| && (MayTake(q, c, i, Origin(q)) || MayBeFed(q, c, i, n - 1))
  }

  predicate MayBeFed(q: Question, c: Scope, i: nat, n: nat)
    decreases n, 1
  {
    exists j: nat :: j < |q.bindings| && MayFeed(q, c, j, i) && MayWithin(q, c, j, n)
  }

  /** No chain needs more imports than there are bindings. */
  predicate MayRefer(q: Question, c: Scope, i: nat) { MayWithin(q, c, i, |q.bindings|) }

  lemma FedMayRefer(q: Question, c: Scope, j: nat, i: nat, n: nat)
    requires MayFeed(q, c, j, i) && MayWithin(q, c, j, n)
    ensures MayWithin(q, c, i, n + 1)
  {
  }

  lemma {:induction false} MayWithinGrows(q: Question, c: Scope, i: nat, m: nat, n: nat)
    requires m <= n && MayWithin(q, c, i, m)
    ensures MayWithin(q, c, i, n)
  {
    if m < n {
      MayWithinGrows(q, c, i, m, n - 1);
      OneMore(q, c, i, n - 1);
    }
  }

  lemma {:induction false} OneMore(q: Question, c: Scope, i: nat, n: nat)
    requires MayWithin(q, c, i, n)
    ensures MayWithin(q, c, i, n + 1)
    decreases n
  {
    if !MayTake(q, c, i, Origin(q)) {
      var j := Feeder(q, c, i, n - 1);
      OneMore(q, c, j, n - 1);
      FedMayRefer(q, c, j, i, n);
    }
  }

  lemma Feeder(q: Question, c: Scope, i: nat, n: nat) returns (j: nat)
    requires MayBeFed(q, c, i, n)
    ensures MayFeed(q, c, j, i) && MayWithin(q, c, j, n)
  {
    j :| j < |q.bindings| && MayFeed(q, c, j, i) && MayWithin(q, c, j, n);
  }

  function MaySet(q: Question, c: Scope, n: nat): set<nat> {
    set i: nat | i < |q.bindings| && MayWithin(q, c, i, n)
  }

  /** A round that adds nothing is the last one to add anything. */
  lemma {:induction false} StillRounds(q: Question, c: Scope, m: nat, n: nat)
    requires m <= n && MaySet(q, c, m + 1) <= MaySet(q, c, m)
    ensures MaySet(q, c, n) <= MaySet(q, c, m)
  {
    if m < n {
      StillRounds(q, c, m, n - 1);
      forall i | i in MaySet(q, c, n) ensures i in MaySet(q, c, m) {
        if !MayTake(q, c, i, Origin(q)) {
          var j := Feeder(q, c, i, n - 1);
          assert j in MaySet(q, c, n - 1);
          FedMayRefer(q, c, j, i, m);
        }
        assert MayWithin(q, c, i, m + 1);
        assert i in MaySet(q, c, m + 1);
      }
    }
  }

  /** Every round adds a binding until one adds nothing. */
  lemma {:induction false} RoundsAdd(q: Question, c: Scope, n: nat) returns (last: nat)
    ensures last <= n && (MaySet(q, c, last + 1) <= MaySet(q, c, last) || (last == n && |MaySet(q, c, n)| >= n))
  {
    last := 0;
    if n > 0 {
      last := RoundsAdd(q, c, n - 1);
      if !(MaySet(q, c, last + 1) <= MaySet(q, c, last)) {
        RoundIsLarger(q, c, n - 1);
        last := n;
      }
    }
  }

  lemma RoundIsLarger(q: Question, c: Scope, n: nat)
    requires !(MaySet(q, c, n + 1) <= MaySet(q, c, n))
    ensures |MaySet(q, c, n + 1)| > |MaySet(q, c, n)|
  {
    var i :| i in MaySet(q, c, n + 1) && i !in MaySet(q, c, n);
    forall k | k in MaySet(q, c, n) ensures k in MaySet(q, c, n + 1) { MayWithinGrows(q, c, k, n, n + 1); }
    SmallerInside(MaySet(q, c, n) + {i}, MaySet(q, c, n + 1));
  }

  lemma {:induction false} SmallerInside(a: set<nat>, b: set<nat>)
    requires a <= b
    ensures |a| <= |b|
  {
    if a != {} {
      var k :| k in a;
      SmallerInside(a - {k}, b - {k});
    }
  }

  lemma MayReferIsComplete(q: Question, c: Scope, i: nat, n: nat)
    requires MayWithin(q, c, i, n)
    ensures MayRefer(q, c, i)
  {
    var most := |q.bindings|;
    var last := RoundsAdd(q, c, most);
    if MaySet(q, c, last + 1) <= MaySet(q, c, last) {
      StillRounds(q, c, last, last + n);
      MayWithinGrows(q, c, i, n, last + n);
      assert i in MaySet(q, c, last + n);
      MayWithinGrows(q, c, i, last, most);
    } else {
      var all := MaySet(q, c, most);
      InsideIsSmall(q, all + {i});
      assert i !in all ==> |all + {i}| == |all| + 1;
    }
  }

  // ----- In every world of the scope, what refers may refer -----

  lemma ImportIsTaken(q: Question, c: Scope, w: Sources, i: nat, s: Site)
    requires Holds(q, c, w) && i < |q.bindings| && Imports(q, w, i) == Some(s)
    ensures MayTake(q, c, i, s)
  {
    assert Plausible(q.bindings[i], w[i]);
    if c.CoherentWorlds? {
      forall k: nat | Twins(q, i, k) ensures MayImport(q, k, s) {
        assert Imports(q, w, k) == Some(s) && Plausible(q.bindings[k], w[k]);
      }
    }
  }

  lemma {:induction false} ChainsMayRefer(q: Question, c: Scope, w: Sources, chain: seq<nat>, k: nat)
    requires Holds(q, c, w) && Chain(q, w, chain) && k < |chain|
    ensures MayWithin(q, c, chain[k], k + 1)
  {
    if k == 0 {
      ImportIsTaken(q, c, w, chain[0], Origin(q));
    } else {
      ChainsMayRefer(q, c, w, chain, k - 1);
      assert Link(q, w, chain, k);
      ImportIsTaken(q, c, w, chain[k], Local(q.bindings[chain[k - 1]]));
      FedMayRefer(q, c, chain[k - 1], chain[k], k);
    }
  }

  lemma ReferringMayRefer(q: Question, c: Scope, w: Sources, i: nat)
    requires Holds(q, c, w) && Refers(q, w, i)
    ensures MayRefer(q, c, i)
  {
    var chain :| Chain(q, w, chain) && Last(chain) == i;
    ChainsMayRefer(q, c, w, chain, |chain| - 1);
    MayReferIsComplete(q, c, i, |chain|);
  }

  // ----- Questions with a coherent world -----

  /** A unique source of the name that binding `i` re-exports. */
  predicate Anchors(q: Question, u: nat, i: nat) {
    Twins(q, u, i) && q.bindings[u].resolution == Unique && q.bindings[u].source.Some?
  }

  /** All re-exports of a name may import what one of them is known to. */
  predicate Compatible(q: Question) {
    && OnceDeclared(q)
    && forall u: nat, i: nat :: u < |q.bindings| && i < |q.bindings| && Anchors(q, u, i) ==>
         MayImport(q, i, Imported(q, u))
  }

  ghost function FirstAnchor(q: Question, i: nat): (u: nat)
    requires exists u: nat :: Anchors(q, u, i)
    ensures Anchors(q, u, i)
  {
    var u: nat :| Anchors(q, u, i);
    u
  }

  ghost function BaseSource(q: Question, c: Scope, i: nat): Option<string>
    requires i < |q.bindings|
  {
    if c.CoherentWorlds? && exists u: nat :: Anchors(q, u, i) then q.bindings[FirstAnchor(q, i)].source
    else UniqueSource(q.bindings[i])
  }

  /** The world in which nothing is known but unique sources and what follows from them. */
  ghost function Base(q: Question, c: Scope): (w: Sources)
    ensures |w| == |q.bindings|
  {
    seq(|q.bindings|, i requires 0 <= i < |q.bindings| => BaseSource(q, c, i))
  }

  lemma BaseIsAnchored(q: Question, i: nat, u: nat)
    requires Compatible(q) && Anchors(q, u, i)
    ensures BaseSource(q, CoherentWorlds, i) == q.bindings[u].source
    ensures q.bindings[i].importedName == q.bindings[u].importedName
  {
    var v := FirstAnchor(q, i);
    assert Anchors(q, u, v);
    assert MayImport(q, v, Imported(q, u)) && MayImport(q, i, Imported(q, u));
  }

  lemma BaseHolds(q: Question, c: Scope)
    requires c.CoherentWorlds? ==> Compatible(q)
    ensures Holds(q, c, Base(q, c))
  {
    var w := Base(q, c);
    forall i: nat | i < |q.bindings| ensures Plausible(q.bindings[i], w[i]) {
      if c.CoherentWorlds? && exists u: nat :: Anchors(q, u, i) {
        var u: nat :| Anchors(q, u, i);
        BaseIsAnchored(q, i, u);
        assert MayImport(q, i, Imported(q, u));
      }
    }
    if c.CoherentWorlds? {
      forall i: nat, j: nat | Twins(q, i, j) ensures Imports(q, w, i) == Imports(q, w, j) { BaseIsShared(q, i, j, w); }
    }
  }

  lemma BaseIsShared(q: Question, i: nat, j: nat, w: Sources)
    requires Compatible(q) && Twins(q, i, j) && w == Base(q, CoherentWorlds)
    ensures Imports(q, w, i) == Imports(q, w, j)
  {
    if exists u: nat :: Anchors(q, u, i) {
      var u: nat :| Anchors(q, u, i);
      assert Anchors(q, u, j);
      BaseIsAnchored(q, i, u);
      BaseIsAnchored(q, j, u);
    } else {
      assert !Anchors(q, i, i) && !Anchors(q, j, i);
      assert forall u: nat :: Anchors(q, u, j) ==> Anchors(q, u, i);
    }
  }

  /** A question has a coherent world exactly when it is compatible. */
  lemma CoherentWorldsExist(q: Question)
    ensures Compatible(q) <==> exists w :: World(q, w) && Coherent(q, w)
  {
    if Compatible(q) {
      BaseHolds(q, CoherentWorlds);
      assert Holds(q, CoherentWorlds, Base(q, CoherentWorlds));
    }
    if w :| World(q, w) && Coherent(q, w) { CoherentIsCompatible(q, w); }
  }

  lemma CoherentIsCompatible(q: Question, w: Sources)
    requires World(q, w) && Coherent(q, w)
    ensures Compatible(q)
  {
    forall u: nat, i: nat | u < |q.bindings| && i < |q.bindings| && Anchors(q, u, i)
      ensures MayImport(q, i, Imported(q, u))
    {
      assert Plausible(q.bindings[u], w[u]) && Plausible(q.bindings[i], w[i]);
      assert Imports(q, w, u) == Imports(q, w, i);
    }
  }

  // ----- What may refer does refer in some world of the scope -----

  lemma TwinsTake(q: Question, i: nat, j: nat, s: Site)
    requires Twins(q, i, j)
    ensures MayTake(q, CoherentWorlds, i, s) ==> MayTake(q, CoherentWorlds, j, s)
  {
    if MayTake(q, CoherentWorlds, i, s) {
      forall k: nat | Twins(q, j, k) ensures MayImport(q, k, s) { assert Twins(q, i, k); }
    }
  }

  lemma TwinsWithin(q: Question, i: nat, j: nat, n: nat)
    requires Twins(q, i, j) && MayWithin(q, CoherentWorlds, i, n)
    ensures MayWithin(q, CoherentWorlds, j, n)
  {
    TwinsTake(q, i, j, Origin(q));
    if !MayTake(q, CoherentWorlds, i, Origin(q)) {
      var k := Feeder(q, CoherentWorlds, i, n - 1);
      TwinsTake(q, i, j, Local(q.bindings[k]));
      FedMayRefer(q, CoherentWorlds, k, j, n - 1);
    }
  }

  predicate Exporting(q: Question, s: Site, k: nat) {
    k < |q.bindings| && q.bindings[k].kind == ReExport && Local(q.bindings[k]) == s
  }

  ghost function Exporter(q: Question, s: Site): (k: nat)
    requires exists k: nat :: Exporting(q, s, k)
    ensures Exporting(q, s, k)
  {
    var k: nat :| Exporting(q, s, k);
    k
  }

  /** In coherent worlds the same for all re-exports of a name. */
  ghost function Deputy(q: Question, c: Scope, i: nat): (r: nat)
    requires i < |q.bindings|
    ensures r == i || (c.CoherentWorlds? && Twins(q, i, r) && Twins(q, r, i))
  {
    if c.CoherentWorlds? && q.bindings[i].kind == ReExport then
      assert Exporting(q, Local(q.bindings[i]), i);
      Exporter(q, Local(q.bindings[i]))
    else i
  }

  /** What a binding of round `n + 1` imports on its way to the declaration. */
  ghost function Via(q: Question, c: Scope, i: nat, n: nat): (s: Site)
    requires i < |q.bindings| && MayWithin(q, c, Deputy(q, c, i), n + 1)
    ensures MayTake(q, c, Deputy(q, c, i), s)
    ensures s == Origin(q) || exists j: nat :: Exporting(q, s, j) && MayWithin(q, c, j, n)
  {
    var r := Deputy(q, c, i);
    if MayTake(q, c, r, Origin(q)) then Origin(q)
    else
      assert MayBeFed(q, c, r, n);
      var j: nat :| j < |q.bindings| && MayFeed(q, c, j, r) && MayWithin(q, c, j, n);
      assert Exporting(q, Local(q.bindings[j]), j);
      Local(q.bindings[j])
  }

  lemma DeputyWithin(q: Question, c: Scope, i: nat, n: nat)
    requires i < |q.bindings| && MayWithin(q, c, i, n)
    ensures MayWithin(q, c, Deputy(q, c, i), n)
  {
    if Deputy(q, c, i) != i { TwinsWithin(q, i, Deputy(q, c, i), n); }
  }

  lemma ViaIsTaken(q: Question, c: Scope, i: nat, n: nat)
    requires i < |q.bindings| && MayWithin(q, c, Deputy(q, c, i), n + 1)
    ensures MayTake(q, c, i, Via(q, c, i, n))
  {
    if Deputy(q, c, i) != i { TwinsTake(q, Deputy(q, c, i), i, Via(q, c, i, n)); }
  }

  ghost predicate Realizes(q: Question, c: Scope, w: Sources, n: nat)
    requires |w| == |q.bindings|
  {
    forall i: nat :: i < |q.bindings| && MayWithin(q, c, i, n) ==> Refers(q, w, i)
  }

  lemma ViaRefers(q: Question, c: Scope, w: Sources, i: nat, n: nat)
    requires |w| == |q.bindings| && Realizes(q, c, w, n)
    requires i < |q.bindings| && MayWithin(q, c, Deputy(q, c, i), n + 1) && Imports(q, w, i) == Some(Via(q, c, i, n))
    ensures Refers(q, w, i)
  {
    var s := Via(q, c, i, n);
    if s == Origin(q) {
      DirectImportRefers(q, w, i);
    } else {
      var j: nat :| Exporting(q, s, j) && MayWithin(q, c, j, n);
      ImportOfReExportRefers(q, w, j, i);
    }
  }

  /** Every known source of `w` is the same in `v`. */
  ghost predicate Extends(w: Sources, v: Sources) {
    |w| == |v| && forall k :: 0 <= k < |w| && w[k].Some? ==> v[k] == w[k]
  }

  lemma ExtendedWorldRefers(q: Question, w: Sources, v: Sources, i: nat)
    requires |w| == |q.bindings| && Extends(w, v) && Refers(q, w, i)
    ensures Refers(q, v, i)
  {
    var chain :| Chain(q, w, chain) && Last(chain) == i;
    forall k | 1 <= k < |chain| ensures Link(q, v, chain, k) { assert Link(q, w, chain, k); }
    assert Chain(q, v, chain);
  }

  ghost function WidenedSource(q: Question, c: Scope, w: Sources, n: nat, i: nat): Option<string>
    requires i < |w| == |q.bindings|
  {
    if w[i].None? && MayWithin(q, c, Deputy(q, c, i), n + 1) then Some(Via(q, c, i, n).uri) else w[i]
  }

  /** The sources of `w`, and for what is open in it those of round `n + 1`. */
  ghost function Widened(q: Question, c: Scope, w: Sources, n: nat): (v: Sources)
    requires |w| == |q.bindings|
    ensures |v| == |w|
  {
    seq(|w|, i requires 0 <= i < |w| => WidenedSource(q, c, w, n, i))
  }

  lemma WidenedImport(q: Question, c: Scope, w: Sources, n: nat, i: nat, v: Sources)
    requires i < |w| == |q.bindings| && v == Widened(q, c, w, n)
    ensures w[i].None? && MayWithin(q, c, Deputy(q, c, i), n + 1) ==>
      Imports(q, v, i) == Some(Via(q, c, i, n)) && Plausible(q.bindings[i], v[i])
    ensures !(w[i].None? && MayWithin(q, c, Deputy(q, c, i), n + 1)) ==> v[i] == w[i]
  {
    if w[i].None? && MayWithin(q, c, Deputy(q, c, i), n + 1) { ViaIsTaken(q, c, i, n); }
  }

  lemma WidenedIsShared(q: Question, w: Sources, n: nat, v: Sources, i: nat, j: nat)
    requires |w| == |q.bindings| && v == Widened(q, CoherentWorlds, w, n) && Twins(q, i, j)
    requires Imports(q, w, i) == Imports(q, w, j)
    ensures Imports(q, v, i) == Imports(q, v, j)
  {
    assert Deputy(q, CoherentWorlds, i) == Deputy(q, CoherentWorlds, j);
    WidenedImport(q, CoherentWorlds, w, n, i, v);
    WidenedImport(q, CoherentWorlds, w, n, j, v);
  }

  lemma WidenedHolds(q: Question, c: Scope, w: Sources, n: nat, v: Sources)
    requires Holds(q, c, w) && v == Widened(q, c, w, n)
    ensures Holds(q, c, v) && Extends(w, v)
  {
    forall i: nat | i < |q.bindings| ensures Plausible(q.bindings[i], v[i]) {
      assert Plausible(q.bindings[i], w[i]);
      WidenedImport(q, c, w, n, i, v);
    }
    if c.CoherentWorlds? {
      forall i: nat, j: nat | Twins(q, i, j) ensures Imports(q, v, i) == Imports(q, v, j) {
        WidenedIsShared(q, w, n, v, i, j);
      }
    }
  }

  /** Whatever the binding may take, it imports already. */
  ghost predicate Pinned(q: Question, c: Scope, w: Sources, i: nat)
    requires i < |q.bindings| == |w|
  {
    forall s: Site :: MayTake(q, c, i, s) ==> Imports(q, w, i) == Some(s)
  }

  /** A known source is the only one there may be, or was chosen to refer. */
  ghost predicate Chosen(q: Question, c: Scope, w: Sources)
    requires |w| == |q.bindings|
  {
    forall i: nat :: i < |q.bindings| && w[i].Some? ==> Pinned(q, c, w, i) || Refers(q, w, i)
  }

  lemma BaseIsChosen(q: Question, c: Scope, w: Sources)
    requires (c.CoherentWorlds? ==> Compatible(q)) && w == Base(q, c)
    ensures Chosen(q, c, w)
  {
    forall i: nat | i < |q.bindings| && w[i].Some? ensures Pinned(q, c, w, i) {
      if c.CoherentWorlds? && exists u: nat :: Anchors(q, u, i) {
        var u: nat :| Anchors(q, u, i);
        BaseIsAnchored(q, i, u);
        forall s: Site | MayTake(q, c, i, s) ensures Imports(q, w, i) == Some(s) {
          assert Twins(q, i, u) && MayImport(q, u, s);
        }
      }
    }
  }

  lemma WidenedRefers(q: Question, c: Scope, w: Sources, n: nat, v: Sources, i: nat)
    requires |w| == |q.bindings| && v == Widened(q, c, w, n) && Extends(w, v) && Realizes(q, c, v, n)
    requires i < |q.bindings| && MayWithin(q, c, i, n + 1)
    requires w[i].Some? ==> Pinned(q, c, w, i) || Refers(q, w, i)
    ensures Refers(q, v, i)
  {
    DeputyWithin(q, c, i, n + 1);
    WidenedImport(q, c, w, n, i, v);
    if w[i].None? {
      ViaRefers(q, c, v, i, n);
    } else if Pinned(q, c, w, i) {
      ViaIsTaken(q, c, i, n);
      ViaRefers(q, c, v, i, n);
    } else {
      ExtendedWorldRefers(q, w, v, i);
    }
  }

  lemma WidenedIsChosen(q: Question, c: Scope, w: Sources, n: nat, v: Sources)
    requires |w| == |q.bindings| && Chosen(q, c, w) && v == Widened(q, c, w, n)
    requires Extends(w, v) && Realizes(q, c, v, n)
    ensures Chosen(q, c, v)
  {
    forall i: nat | i < |q.bindings| && v[i].Some? ensures Pinned(q, c, v, i) || Refers(q, v, i) {
      WidenedImport(q, c, w, n, i, v);
      if w[i].None? {
        ViaRefers(q, c, v, i, n);
      } else if !Pinned(q, c, w, i) {
        ExtendedWorldRefers(q, w, v, i);
      }
    }
  }

  lemma WideningRealizes(q: Question, c: Scope, w: Sources, n: nat, v: Sources)
    requires |w| == |q.bindings| && Realizes(q, c, w, n) && Chosen(q, c, w)
    requires v == Widened(q, c, w, n) && Extends(w, v)
    ensures Realizes(q, c, v, n + 1) && Chosen(q, c, v)
  {
    forall i: nat | i < |q.bindings| && MayWithin(q, c, i, n) ensures Refers(q, v, i) {
      ExtendedWorldRefers(q, w, v, i);
    }
    forall i: nat | i < |q.bindings| && MayWithin(q, c, i, n + 1) ensures Refers(q, v, i) {
      WidenedRefers(q, c, w, n, v, i);
    }
    WidenedIsChosen(q, c, w, n, v);
  }

  /** One world in which everything refers that may within `n` imports. */
  lemma {:induction false} Realization(q: Question, c: Scope, n: nat) returns (w: Sources)
    requires c.CoherentWorlds? ==> Compatible(q)
    ensures Holds(q, c, w) && Realizes(q, c, w, n) && Chosen(q, c, w)
  {
    if n == 0 {
      w := Base(q, c);
      BaseHolds(q, c);
      BaseIsChosen(q, c, w);
    } else {
      var before := Realization(q, c, n - 1);
      w := Widened(q, c, before, n - 1);
      WidenedHolds(q, c, before, n - 1, w);
      WideningRealizes(q, c, before, n - 1, w);
    }
  }

  /** In either scope a binding may refer exactly when it refers in some world of the scope,
      and one world of the scope has all of them refer. */
  lemma MayReferExactly(q: Question, c: Scope) returns (w: Sources)
    requires c.CoherentWorlds? ==> Compatible(q)
    ensures Holds(q, c, w) && forall i: nat :: MayRefer(q, c, i) <==> Refers(q, w, i)
    ensures forall v: Sources, i: nat :: Holds(q, c, v) && Refers(q, v, i) ==> MayRefer(q, c, i)
  {
    w := Realization(q, c, |q.bindings|);
    forall v: Sources, i: nat | Holds(q, c, v) && Refers(q, v, i) ensures MayRefer(q, c, i) {
      ReferringMayRefer(q, c, v, i);
    }
  }

  // ----- Which questions the first loop covers -----

  /** A source passed over imports what a re-export that may refer exports. */
  predicate Leaks(q: Question, c: Scope, i: nat, j: nat) {
    PassedOver(q, i) && MayRefer(q, c, j) && MayFeed(q, c, j, i)
  }

  predicate Tight(q: Question, c: Scope) {
    forall i: nat, j: nat :: i < |q.bindings| && j < |q.bindings| ==> !Leaks(q, c, i, j)
  }

  lemma TightIsGuarded(q: Question, c: Scope, w: Sources)
    requires Holds(q, c, w) && Tight(q, c)
    ensures Guarded(q, w)
  {
    forall i: nat | PassedOver(q, i) ensures !Refers(q, w, i) {
      if Refers(q, w, i) {
        var via := ReferringImports(q, w, i);
        ReferringMayRefer(q, c, w, via.value);
        ImportIsTaken(q, c, w, i, Local(q.bindings[via.value]));
        assert Leaks(q, c, i, via.value);
      }
    }
  }

  lemma LeakMayRefer(q: Question, c: Scope, i: nat, j: nat)
    requires Leaks(q, c, i, j)
    ensures MayRefer(q, c, i)
  {
    FedMayRefer(q, c, j, i, |q.bindings|);
    MayReferIsComplete(q, c, i, |q.bindings| + 1);
  }

  /** The first loop covers every world of the scope exactly when no source it passes over
      imports what a re-export that may refer exports. Coherent worlds exist exactly for
      compatible questions. */
  lemma CoversEveryWorldExactly(q: Question, c: Scope, possible: set<nat>)
    requires LeastClosed(q, possible)
    ensures (forall w: Sources, i: nat :: Holds(q, c, w) && Refers(q, w, i) ==> i in possible) <==>
      ((c.CoherentWorlds? ==> Compatible(q)) ==> Tight(q, c))
  {
    forall w: Sources | Holds(q, c, w) ensures c.CoherentWorlds? ==> Compatible(q) {
      if c.CoherentWorlds? { CoherentIsCompatible(q, w); }
    }
    if Tight(q, c) {
      forall w: Sources, i: nat | Holds(q, c, w) && Refers(q, w, i) ensures i in possible {
        TightIsGuarded(q, c, w);
        CoversExactlyWhenGuarded(q, possible, w);
      }
    } else if c.CoherentWorlds? ==> Compatible(q) {
      LeakIsMissed(q, c, possible);
    }
  }

  lemma LeakIsMissed(q: Question, c: Scope, possible: set<nat>)
    requires LeastClosed(q, possible) && !Tight(q, c) && (c.CoherentWorlds? ==> Compatible(q))
    ensures exists w: Sources, i: nat :: Holds(q, c, w) && Refers(q, w, i) && i !in possible
  {
    var i: nat, j: nat :| i < |q.bindings| && j < |q.bindings| && Leaks(q, c, i, j);
    LeakMayRefer(q, c, i, j);
    var w := MayReferExactly(q, c);
    assert PassedOver(q, i) && Refers(q, w, i);
    CoversExactlyWhenGuarded(q, possible, w);
  }
}
