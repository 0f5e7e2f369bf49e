/** Loads from a file system at rest. */
module QuietLoads {
  // What was loaded while the file system stood still is proven, so that a query over such
  // loads publishes.

  import opened Options
  import opened ConfigurationWitness
  import opened RequestInputs

  /** What lookups at one time have to do with one another: an absent path is witnessed by
      its first missing ancestor and by the stamp of the directory above that one, and the
      guard of a directory looked up as a path is its identity as a directory. */
  ghost predicate Coherent(fs: FileSystem, t: nat) {
    forall slot :: fs(t, slot).Some? ==> Agrees(fs, t, slot, fs(t, slot).value)
  }

  ghost predicate Agrees(fs: FileSystem, t: nat, slot: Slot, v: Identity) {
    && Has(fs, t, Slot(slot.pathOnly, v.witnessPath), v.identity)
    && (v.absence.Some? ==> Has(fs, t, Slot(false, v.absence.value.0), v.absence.value.1))
    && (slot.pathOnly && v.absence.None? && v.identity != v.guard ==> Has(fs, t, Slot(false, slot.path), v.guard))
  }

  predicate Has(fs: FileSystem, t: nat, slot: Slot, identity: string) {
    fs(t, slot).Some? && fs(t, slot).value.identity == identity
  }

  /** A load in a window during which nothing changed. */
  predicate Quiet(fs: FileSystem, t: nat, a: Action) {
    && (a.Observing? || a.ObservingPath?) && a.before.Some? && a.after == a.before
    && fs(t, Slot(a.ObservingPath?, a.path)) == a.before
  }

  predicate AllQuiet(fs: FileSystem, t: nat, actions: seq<Action>) {
    forall i :: 0 <= i < |actions| ==> Quiet(fs, t, actions[i])
  }

  /** The fact a quiet load is checked against is how the file system is. */
  lemma ConsumedIsTrue(fs: FileSystem, t: nat, w: Witness, a: Action)
    requires Coherent(fs, t) && Quiet(fs, t, a)
    ensures Consumed(w, a).Some? && Has(fs, t, Consumed(w, a).value.slot, Consumed(w, a).value.identity)
  {
    assert Agrees(fs, t, Slot(a.ObservingPath?, a.path), a.before.value);
  }

  /** Nothing rejects, and every fact is how the file system is. */
  ghost predicate Proof(fs: FileSystem, t: nat, w: Witness) {
    && Distinct(w.facts) && !w.unprovable && w.failedReads == {} && w.failures == {}
    && forall i :: 0 <= i < |w.facts| ==> Has(fs, t, w.facts[i].slot, w.facts[i].identity)
  }

  lemma RecordIsProven(fs: FileSystem, t: nat, w: Witness, path: string, f: Fact, regular: bool, source: bool)
    requires Proof(fs, t, w) && |w.facts| < MAX_WITNESS_PATHS && Has(fs, t, f.slot, f.identity)
    ensures var v := Record(w, path, f.slot, f.identity, regular, source);
      Proof(fs, t, v) && v.epoch == w.epoch && |w.facts| <= |v.facts| <= |w.facts| + 1
      && Get(v.facts, f.slot) == Some(f.identity)
  {
    if Get(w.facts, f.slot).None? { AppendedIsFound(w.facts, f); }
  }

  lemma QuietLoadIsProven(fs: FileSystem, t: nat, w: Witness, a: Action)
    requires Coherent(fs, t) && Quiet(fs, t, a) && Proof(fs, t, w) && |w.facts| < MAX_WITNESS_PATHS
    ensures var v := Act(w, a);
      Proof(fs, t, v) && v.epoch == w.epoch && |w.facts| <= |v.facts| <= |w.facts| + 1
      && Get(v.facts, Consumed(w, a).value.slot) == Some(Consumed(w, a).value.identity)
  {
    ConsumedIsTrue(fs, t, w, a);
    var f := Consumed(w, a).value;
    var regular := a.before.value.regular && a.after.value.regular;
    var noted := NoteFact(w, f.slot, f.slot.path == a.path && regular, a.source);
    RecordIsProven(fs, t, noted, a.path, f, regular, a.source);
    if a.ObservingPath? {
      var directory := StableDirectory(a.before.value, a.after.value, a.presence, a.loaded);
      RecordIsProven(fs, t, noted, a.path, f, !directory && regular, a.source);
    }
  }

  ghost predicate ProvenBy(fs: FileSystem, t: nat, w: Witness, n: nat) {
    Proof(fs, t, w) && w.epoch == 0 && |w.facts| <= n
  }

  lemma NewIsProven(fs: FileSystem, t: nat)
    ensures ProvenBy(fs, t, New, 0)
  {
  }

  lemma QuietStep(fs: FileSystem, t: nat, w: Witness, a: Action, v: Witness, n: nat)
    requires Coherent(fs, t) && Quiet(fs, t, a) && v == Act(w, a)
    requires ProvenBy(fs, t, w, n) && n < MAX_WITNESS_PATHS
    ensures ProvenBy(fs, t, v, n + 1)
  {
    QuietLoadIsProven(fs, t, w, a);
  }

  /** Any number of quiet loads within the capacity leaves a new witness proven. */
  lemma {:induction false} QuietLoadsAreProven(fs: FileSystem, t: nat, actions: seq<Action>, n: nat)
    requires n <= |actions| && n <= MAX_WITNESS_PATHS && Coherent(fs, t) && AllQuiet(fs, t, actions)
    ensures ProvenBy(fs, t, Acted(New, actions, n), n)
  {
    if n == 0 {
      NewIsProven(fs, t);
    } else {
      var a, w, v := actions[n - 1], Acted(New, actions, n - 1), Acted(New, actions, n);
      QuietLoadsAreProven(fs, t, actions, n - 1);
      QuietStep(fs, t, w, a, v, n - 1);
    }
  }

  /** An owner in use whose witness is new but for quiet loads. */
  ghost predicate Rests(fs: FileSystem, t: nat, o: Owner, loads: seq<Action>) {
    |loads| <= MAX_WITNESS_PATHS && AllQuiet(fs, t, loads) && o == Owner(Acted(New, loads, |loads|), true)
  }

  lemma RestingIsWhole(fs: FileSystem, t: nat, o: Owner, loads: seq<Action>)
    requires Coherent(fs, t) && Rests(fs, t, o, loads)
    ensures Whole(fs, o, 0, t)
  {
    QuietLoadsAreProven(fs, t, loads, |loads|);
  }

  /** Such an owner passes every check. */
  lemma QuietOwnerPasses(fs: FileSystem, q: Query, owner: nat, loads: seq<Action>, from: nat)
    requires Steady(fs, from) && Coherent(fs, from) && Fresh(fs, q.phase, from, q.clock) && from <= q.clock
    requires owner < |q.owners| && Rests(fs, from, q.owners[owner], loads)
    requires owner in q.inputs ==> q.inputs[owner].epoch == 0
    ensures Check(fs, q, owner, 0).ok
  {
    RestingIsWhole(fs, from, q.owners[owner], loads);
    ChecksExactly(fs, q, owner, 0, from);
  }

  /** A query all of whose owners rest publishes. */
  lemma QuietQueryPublishes(fs: FileSystem, q: Query, loads: seq<seq<Action>>)
    requires Steady(fs, q.clock) && Coherent(fs, q.clock) && |loads| == |q.owners|
    requires forall i :: 0 <= i < |loads| ==> Rests(fs, q.clock, q.owners[i], loads[i])
    requires forall i :: 0 <= i < |q.order| ==>
      q.order[i] < |q.owners| && q.order[i] in q.inputs && q.inputs[q.order[i]].epoch == 0
    ensures Final(fs, q, |q.order|).ok
  {
    forall i | 0 <= i < |q.order| ensures WholeAt(fs, q, i) {
      RestingIsWhole(fs, q.clock, q.owners[q.order[i]], loads[q.order[i]]);
    }
    PublishesExactly(fs, q, |q.order|);
  }
}
