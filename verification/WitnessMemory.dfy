/** What a configuration's evidence remembers. */
module WitnessMemory {
  // Each verdict and each mark of the witness is read off the actions: which of them came
  // after the last one that lifts it.

  import opened Options
  import opened ConfigurationWitness

  // ----- Rejections -----

  predicate Loads(a: Action) { a.Observing? || a.ObservingPath? }

  predicate BothRegular(before: Option<Identity>, after: Option<Identity>) {
    before.Some? && after.Some? && before.value.regular && after.value.regular
  }

  /** The load itself changed what is there, as far as the fact depends on it. */
  predicate ReadsDirectory(a: Action) {
    && a.ObservingPath? && a.before.Some? && a.after.Some?
    && StableDirectory(a.before.value, a.after.value, a.presence, a.loaded)
  }

  predicate Known(w: Witness, path: string) {
    exists f :: f in w.facts && f.slot.path == path
  }

  /** Why an action makes the witness unprovable. */
  function Rejects(w: Witness, a: Action): Option<Reason> {
    if Loads(a) then
      if a.before.None? || a.after.None? then Some(IdentityUnavailable)
      else if Consumed(w, a).None? then Some(ChangedDuringLoad)
      else
        var f := Consumed(w, a).value;
        if Get(w.facts, f.slot).None? then (if |w.facts| >= MAX_WITNESS_PATHS then Some(Capacity) else None)
        else if Get(w.facts, f.slot) == Some(f.identity) then None
        else if BothRegular(a.before, a.after) && !ReadsDirectory(a) && f.slot.path == a.path && a.path in w.failedReads
        then None else Some(LoadedIdentityChanged)
    else if a.Marking? then Some(CallerInvalidated)
    else if a.ReadingChanged? && Known(w, a.path) && !BothRegular(a.before, a.after) then Some(NamespaceUnproven)
    else None
  }

  /** A rejection that a source of the compiler answers for. */
  predicate BySource(w: Witness, a: Action) {
    && Rejects(w, a).Some? && |w.failures| < MAX_WITNESS_PATHS && Loads(a) && a.source && !Rejects(w, a).value.Capacity?
  }

  // ----- Marks -----

  /** `Unmendable`: a rejection that no replacement of source facts could mend;
      `Unresettable`: one for which no source answers. */
  datatype Mark =
    | Unprovable | Unmendable | Unresettable
    | FailedRead(path: string) | FailedSource(path: string)
    | OfCompiler(slot: Slot) | OfRegularSource(slot: Slot)

  predicate Marked(m: Mark, w: Witness) {
    match m
    case Unprovable => w.unprovable
    case Unmendable => !w.namespaceOnly
    case Unresettable => !w.resetOnly
    case FailedRead(path) => path in w.failedReads
    case FailedSource(path) => path in w.failures
    case OfCompiler(slot) => slot in w.namespaceFacts
    case OfRegularSource(slot) => slot in w.regularFacts
  }

  predicate Consumes(w: Witness, a: Action, slot: Slot) {
    Loads(a) && Consumed(w, a).Some? && Consumed(w, a).value.slot == slot
  }

  /** The compiler's load is the first to need the fact. */
  predicate Notes(w: Witness, a: Action, slot: Slot) {
    Consumes(w, a, slot) && a.source && Get(w.facts, slot).None? && |w.facts| < MAX_WITNESS_PATHS
  }

  /** A changed source whose facts are known was read: in full and undisturbed, or not. */
  predicate Rereads(w: Witness, a: Action, path: string, good: bool) {
    && a.ReadingChanged? && a.path == path && Known(w, path) && BothRegular(a.before, a.after)
    && good == (a.content && a.before.value.guard == a.after.value.guard)
  }

  predicate Begins(m: Mark, w: Witness, a: Action) {
    match m
    case Unprovable => Rejects(w, a).Some?
    case Unmendable => Rejects(w, a).Some? && (!BySource(w, a) || Rejects(w, a).value.IdentityUnavailable?)
    case Unresettable => Rejects(w, a).Some? && !BySource(w, a)
    case FailedRead(path) => Rereads(w, a, path, false)
    case FailedSource(path) => BySource(w, a) && a.path == path
    case OfCompiler(slot) => Notes(w, a, slot)
    case OfRegularSource(slot) =>
      || (Notes(w, a, slot) && slot.path == a.path && BothRegular(a.before, a.after))
      || (slot in w.namespaceFacts && Rereads(w, a, slot.path, true))
  }

  /** The fact is dropped, or a load that is not the compiler's needs it too. */
  predicate Releases(w: Witness, a: Action, slot: Slot) {
    || (Consumes(w, a, slot) && !a.source)
    || (a.Retiring? && !w.unprovable && w.failedReads == {} && a.affected(slot.path) && Get(w.facts, slot).Some?)
  }

  predicate Ends(m: Mark, w: Witness, a: Action) {
    || a.Resetting?
    || (m.FailedRead? && Rereads(w, a, m.path, true))
    || ((m.OfCompiler? || m.OfRegularSource?) && Releases(w, a, m.slot))
  }

  // ----- One action -----

  lemma KnownByEither(w: Witness, path: string)
    ensures Known(w, path) <==> Get(w.facts, Slot(false, path)).Some? || Get(w.facts, Slot(true, path)).Some?
  {
    if f :| f in w.facts && f.slot.path == path {
      var i :| 0 <= i < |w.facts| && w.facts[i] == f;
      assert f.slot == Slot(f.slot.pathOnly, path);
      assert Find(w.facts, f.slot, 0) <= i;
    }
    forall slot | Get(w.facts, slot).Some? ensures exists f :: f in w.facts && f.slot == slot {
      assert w.facts[Find(w.facts, slot, 0)] in w.facts;
    }
  }

  predicate Steps(m: Mark, w: Witness, a: Action, v: Witness) {
    Marked(m, v) <==> Begins(m, w, a) || (Marked(m, w) && !Ends(m, w, a))
  }

  /** The witness once the fact of a load is noted. */
  function Noted(w: Witness, a: Action): Witness
    requires Loads(a)
  {
    if Consumed(w, a).None? then w
    else
      var slot := Consumed(w, a).value.slot;
      NoteFact(w, slot, slot.path == a.path && BothRegular(a.before, a.after), a.source)
  }

  /** A load notes its fact, then rejects or keeps the fact. */
  predicate LoadsAs(w: Witness, a: Action, noted: Witness, v: Witness)
    requires Loads(a)
  {
    if Rejects(w, a).Some? then v == MarkUnprovable(noted, Rejects(w, a).value, Some(a.path), a.source)
    else v == noted.(facts := v.facts, revision := v.revision)
  }

  lemma RecordIs(w: Witness, noted: Witness, a: Action, f: Fact, v: Witness)
    requires Loads(a) && Consumed(w, a) == Some(f) && noted == Noted(w, a)
    requires var regular := BothRegular(a.before, a.after) && !ReadsDirectory(a);
      v == Record(noted, a.path, f.slot, f.identity, regular, a.source)
    ensures LoadsAs(w, a, noted, v)
  {
    assert noted.facts == w.facts && noted.failedReads == w.failedReads;
  }

  lemma ObserveIs(w: Witness, a: Action, v: Witness)
    requires a.Observing? && v == Act(w, a)
    ensures LoadsAs(w, a, Noted(w, a), v)
  {
    if Consumed(w, a).Some? { RecordIs(w, Noted(w, a), a, Consumed(w, a).value, v); }
  }

  lemma ObservePathIs(w: Witness, a: Action, v: Witness)
    requires a.ObservingPath? && v == Act(w, a)
    ensures LoadsAs(w, a, Noted(w, a), v)
  {
    if Consumed(w, a).Some? { RecordIs(w, Noted(w, a), a, Consumed(w, a).value, v); }
  }

  /** Noting a fact touches nothing else. */
  lemma NotedIs(w: Witness, a: Action)
    requires Loads(a)
    ensures var n := Noted(w, a);
      n == w.(namespaceFacts := n.namespaceFacts, regularFacts := n.regularFacts)
    ensures forall slot :: slot in Noted(w, a).namespaceFacts <==>
      Notes(w, a, slot) || (slot in w.namespaceFacts && !Releases(w, a, slot))
    ensures forall slot :: slot in Noted(w, a).regularFacts <==>
      || (Notes(w, a, slot) && slot.path == a.path && BothRegular(a.before, a.after))
      || (slot in w.regularFacts && !Releases(w, a, slot))
  {
  }

  predicate OfSlot(m: Mark) { m.OfCompiler? || m.OfRegularSource? }

  lemma SlotSteps(m: Mark, w: Witness, a: Action, v: Witness)
    requires Loads(a) && OfSlot(m) && LoadsAs(w, a, Noted(w, a), v)
    ensures Steps(m, w, a, v)
  {
    NotedIs(w, a);
  }

  lemma VerdictSteps(m: Mark, w: Witness, a: Action, v: Witness)
    requires Loads(a) && !OfSlot(m) && LoadsAs(w, a, Noted(w, a), v)
    ensures Steps(m, w, a, v)
  {
    NotedIs(w, a);
  }

  lemma LoadSteps(m: Mark, w: Witness, a: Action, v: Witness)
    requires Loads(a) && v == Act(w, a)
    ensures Steps(m, w, a, v)
  {
    if a.Observing? { ObserveIs(w, a, v); } else { ObservePathIs(w, a, v); }
    if OfSlot(m) { SlotSteps(m, w, a, v); } else { VerdictSteps(m, w, a, v); }
  }

  lemma MarkingSteps(m: Mark, w: Witness, a: Action, v: Witness)
    requires a.ReadingChanged? && Rejects(w, a).Some?
    requires v == MarkUnprovable(w, NamespaceUnproven, Some(a.path), a.source)
    ensures Steps(m, w, a, v)
  {
  }

  lemma RereadSteps(m: Mark, w: Witness, a: Action, v: Witness)
    requires a.ReadingChanged? && Rereads(w, a, a.path, true) && v == Reread(w, a.path, a.before.value.identity)
    ensures Steps(m, w, a, v)
  {
  }

  lemma FailedReadSteps(m: Mark, w: Witness, a: Action, v: Witness)
    requires a.ReadingChanged? && Rereads(w, a, a.path, false)
    requires v == if a.path in w.failedReads then w
                  else w.(failedReads := w.failedReads + {a.path}, revision := w.revision + 1)
    ensures Steps(m, w, a, v)
  {
  }

  lemma ReadingSteps(m: Mark, w: Witness, a: Action, v: Witness)
    requires a.ReadingChanged? && v == Act(w, a)
    ensures Steps(m, w, a, v)
  {
    KnownByEither(w, a.path);
    if Known(w, a.path) {
      if !BothRegular(a.before, a.after) { MarkingSteps(m, w, a, v); }
      else if a.content && a.before.value.guard == a.after.value.guard { RereadSteps(m, w, a, v); }
      else { FailedReadSteps(m, w, a, v); }
    }
  }

  lemma ActionSteps(m: Mark, w: Witness, a: Action, v: Witness)
    requires v == Act(w, a)
    ensures Steps(m, w, a, v)
  {
    if Loads(a) { LoadSteps(m, w, a, v); } else if a.ReadingChanged? { ReadingSteps(m, w, a, v); }
  }

  // ----- Every run -----

  /** The witness after the first `n` actions. */
  function After(actions: seq<Action>, n: nat): Witness
    requires n <= |actions|
  {
    Acted(New, actions, n)
  }

  predicate EndsAt(m: Mark, actions: seq<Action>, k: nat)
    requires k < |actions|
  {
    Ends(m, After(actions, k), actions[k])
  }

  /** It began with action `k` and nothing since lifted it. */
  predicate LastsFrom(m: Mark, actions: seq<Action>, n: nat, k: nat)
    requires n <= |actions|
  {
    && k < n && Begins(m, After(actions, k), actions[k])
    && forall j :: k < j < n ==> !EndsAt(m, actions, j)
  }

  ghost predicate Lasts(m: Mark, actions: seq<Action>, n: nat)
    requires n <= |actions|
  {
    exists k: nat :: LastsFrom(m, actions, n, k)
  }

  lemma BegunLasts(m: Mark, actions: seq<Action>, n: nat)
    requires 0 < n <= |actions| && Begins(m, After(actions, n - 1), actions[n - 1])
    ensures Lasts(m, actions, n)
  {
    assert LastsFrom(m, actions, n, n - 1);
  }

  lemma UnendedLasts(m: Mark, actions: seq<Action>, n: nat)
    requires 0 < n <= |actions| && Lasts(m, actions, n - 1) && !EndsAt(m, actions, n - 1)
    ensures Lasts(m, actions, n)
  {
    var k: nat :| LastsFrom(m, actions, n - 1, k);
    assert LastsFrom(m, actions, n, k);
  }

  lemma LastedBefore(m: Mark, actions: seq<Action>, n: nat)
    requires 0 < n <= |actions| && Lasts(m, actions, n) && !Begins(m, After(actions, n - 1), actions[n - 1])
    ensures Lasts(m, actions, n - 1) && !EndsAt(m, actions, n - 1)
  {
    var k: nat :| LastsFrom(m, actions, n, k);
    assert k < n - 1;
    assert LastsFrom(m, actions, n - 1, k);
  }

  /** In every run of a witness, each verdict stands, each failed read is remembered and each
      fact counts as the compiler's exactly when some action brought that about after which
      none lifted it. */
  lemma {:induction false} MarkedExactly(m: Mark, actions: seq<Action>, n: nat)
    requires n <= |actions|
    ensures Marked(m, After(actions, n)) <==> Lasts(m, actions, n)
  {
    if n > 0 {
      var w, a := After(actions, n - 1), actions[n - 1];
      MarkedExactly(m, actions, n - 1);
      ActionSteps(m, w, a, After(actions, n));
      if Begins(m, w, a) {
        BegunLasts(m, actions, n);
      } else if Lasts(m, actions, n) {
        LastedBefore(m, actions, n);
      } else if Lasts(m, actions, n - 1) && !EndsAt(m, actions, n - 1) {
        UnendedLasts(m, actions, n);
      }
    }
  }
}
