/** Evidence of the files a configuration was loaded from. */
module ConfigurationWitness {
  // The file system is an abstract function from time and lookup to an identity; it may
  // change between any two lookups. A fact is recorded by the load that consumed it.

  import opened Options

  const MAX_WITNESS_PATHS: nat := 4096

  /** A lookup of a path; `pathOnly` ignores the contents of a directory. */
  datatype Slot = Slot(pathOnly: bool, path: string)

  /** What a lookup observes. `guard` covers the whole load window; `absence` is the existing
      parent that proves a missing path absent. */
  datatype Identity = Identity(identity: string, guard: string, witnessPath: string, regular: bool,
                               absence: Option<(string, string)>)

  datatype Fact = Fact(slot: Slot, identity: string)

  datatype Reason = IdentityUnavailable | ChangedDuringLoad | LoadedIdentityChanged | Capacity | NamespaceUnproven
    | CallerInvalidated

  datatype Witness = Witness(facts: seq<Fact>, failedReads: set<string>, revision: nat, epoch: nat, unprovable: bool,
                             namespaceOnly: bool, resetOnly: bool, failures: set<string>,
                             namespaceFacts: set<Slot>, regularFacts: set<Slot>)

  const New := Witness([], {}, 0, 0, false, true, true, {}, {}, {})

  // ----- Facts -----

  function Find(facts: seq<Fact>, slot: Slot, from: nat): (i: nat)
    requires from <= |facts|
    ensures from <= i <= |facts| && (i < |facts| ==> facts[i].slot == slot)
    ensures forall j :: from <= j < i ==> facts[j].slot != slot
    decreases |facts| - from
  {
    if from == |facts| || facts[from].slot == slot then from else Find(facts, slot, from + 1)
  }

  function Get(facts: seq<Fact>, slot: Slot): Option<string> {
    var i := Find(facts, slot, 0);
    if i < |facts| then Some(facts[i].identity) else None
  }

  // ----- Failing -----

  /** `source`: the compiler, not the configuration, made the lookup. */
  predicate SourceFailure(w: Witness, reason: Reason, path: Option<string>, source: bool) {
    && source && path.Some? && |w.failures| < MAX_WITNESS_PATHS
    && (reason.LoadedIdentityChanged? || reason.ChangedDuringLoad? || reason.IdentityUnavailable?)
  }

  function MarkUnprovable(w: Witness, reason: Reason, path: Option<string>, source: bool): Witness {
    var mine := SourceFailure(w, reason, path, source);
    var v := w.(resetOnly := w.resetOnly && mine,
                failures := if mine then w.failures + {path.value} else w.failures,
                namespaceOnly := w.namespaceOnly && mine && !reason.IdentityUnavailable?);
    if w.unprovable then v else v.(unprovable := true, revision := w.revision + 1)
  }

  /** A source whose own read failed keeps rejecting by that; anything else poisons the
      whole witness. */
  function RejectChange(w: Witness, path: string, witnessPath: string, regular: bool, source: bool): Witness {
    if !regular || path != witnessPath || path !in w.failedReads
    then MarkUnprovable(w, LoadedIdentityChanged, Some(path), source) else w
  }

  // ----- Observing a load -----

  function NoteFact(w: Witness, slot: Slot, regular: bool, source: bool): Witness {
    if !source then w.(namespaceFacts := w.namespaceFacts - {slot}, regularFacts := w.regularFacts - {slot})
    else if Get(w.facts, slot).None? && |w.facts| < MAX_WITNESS_PATHS then
      w.(namespaceFacts := w.namespaceFacts + {slot},
         regularFacts := if regular then w.regularFacts + {slot} else w.regularFacts)
    else w
  }

  /** Records `identity` for `slot`, unless there is a fact already: then it must agree. */
  function Record(w: Witness, path: string, slot: Slot, identity: string, regular: bool, source: bool): Witness {
    var previous := Get(w.facts, slot);
    if previous.Some? then
      if previous.value == identity then w else RejectChange(w, path, slot.path, regular, source)
    else if |w.facts| >= MAX_WITNESS_PATHS then MarkUnprovable(w, Capacity, Some(path), source)
    else w.(facts := w.facts + [Fact(slot, identity)], revision := w.revision + 1)
  }

  /** What the load returned, as far as it matters. */
  datatype Loaded = False | True | Other

  /** The fact a content load stands for: the missing child's parent when it is covered. */
  function ContentFact(w: Witness, path: string, before: Identity, loaded: Loaded): Fact {
    var negativeLeaf := loaded == False && before.witnessPath == path;
    if before.absence.Some?
       && (Get(w.facts, Slot(false, before.absence.value.0)) == Some(before.absence.value.1) || negativeLeaf)
    then Fact(Slot(false, before.absence.value.0), before.absence.value.1)
    else Fact(Slot(false, before.witnessPath), before.identity)
  }

  function Observe(w: Witness, path: string, before: Option<Identity>, after: Option<Identity>, loaded: Loaded,
                   source: bool): Witness {
    if before.None? || after.None? then MarkUnprovable(w, IdentityUnavailable, Some(path), source)
    else if after.value.guard != before.value.guard then MarkUnprovable(w, ChangedDuringLoad, Some(path), source)
    else
      var f := ContentFact(w, path, before.value, loaded);
      var regular := before.value.regular && after.value.regular;
      Record(NoteFact(w, f.slot, f.slot.path == path && regular, source), path, f.slot, f.identity, regular, source)
  }

  /** The load window of a presence probe may change when the answer does not depend on it. */
  predicate WindowHolds(before: Identity, after: Identity, presence: bool, loaded: Loaded) {
    || after.guard == before.guard
    || (presence && !loaded.Other? && after.identity == before.identity && (before.absence.None? || loaded == False))
  }

  predicate StableDirectory(before: Identity, after: Identity, presence: bool, loaded: Loaded) {
    presence && loaded == True && before.absence.None? && before.identity != before.guard && after.guard == before.guard
  }

  function PathFact(w: Witness, path: string, before: Identity, directory: bool, presence: bool): Fact {
    if directory then Fact(Slot(false, path), before.guard)
    else if presence && before.absence.Some?
            && Get(w.facts, Slot(false, before.absence.value.0)) == Some(before.absence.value.1)
    then Fact(Slot(false, before.absence.value.0), before.absence.value.1)
    else Fact(Slot(true, before.witnessPath), before.identity)
  }

  function ObservePath(w: Witness, path: string, before: Option<Identity>, after: Option<Identity>, presence: bool,
                       loaded: Loaded, source: bool): Witness {
    if before.None? || after.None? then MarkUnprovable(w, IdentityUnavailable, Some(path), source)
    else if !WindowHolds(before.value, after.value, presence, loaded) then
      MarkUnprovable(w, ChangedDuringLoad, Some(path), source)
    else
      var directory := StableDirectory(before.value, after.value, presence, loaded);
      var f := PathFact(w, path, before.value, directory, presence);
      var regular := before.value.regular && after.value.regular;
      Record(NoteFact(w, f.slot, f.slot.path == path && regular, source), path, f.slot, f.identity,
             !directory && regular, source)
  }

  // ----- Replacing and dropping -----

  function Reset(w: Witness): Witness {
    New.(revision := w.revision + 1, epoch := w.epoch + 1)
  }

  function Unaffected(facts: seq<Fact>, n: nat, affected: string -> bool): seq<Fact>
    requires n <= |facts|
  {
    if n == 0 then []
    else Unaffected(facts, n - 1, affected) + if affected(facts[n - 1].slot.path) then [] else [facts[n - 1]]
  }

  function Spared(slots: set<Slot>, facts: seq<Fact>, affected: string -> bool): set<Slot> {
    set s | s in slots && !(affected(s.path) && Get(facts, s).Some?)
  }

  function Retire(w: Witness, affected: string -> bool): Witness {
    if w.unprovable || w.failedReads != {} then w
    else
      w.(facts := Unaffected(w.facts, |w.facts|, affected),
         namespaceFacts := Spared(w.namespaceFacts, w.facts, affected),
         regularFacts := Spared(w.regularFacts, w.facts, affected),
         revision := w.revision + 1, epoch := w.epoch + 1)
  }

  /** The facts about `path`, of either kind, now carry `identity`. */
  function Restamp(facts: seq<Fact>, path: string, identity: string): (r: seq<Fact>)
    ensures |r| == |facts|
  {
    seq(|facts|, i requires 0 <= i < |facts| =>
      if facts[i].slot.path == path then Fact(facts[i].slot, identity) else facts[i])
  }

  predicate Stamped(facts: seq<Fact>, slot: Slot, identity: string) {
    Get(facts, slot).Some? && Get(facts, slot).value != identity
  }

  /** How many of the entries for `path` a good read changes. */
  function Changes(w: Witness, path: string, identity: string): nat {
    (if Stamped(w.facts, Slot(false, path), identity) then 1 else 0)
    + (if Stamped(w.facts, Slot(true, path), identity) then 1 else 0)
    + (if path in w.failedReads then 1 else 0)
  }

  /** A good read of a source: its facts carry the new identity and its failure is over. */
  function Reread(w: Witness, path: string, identity: string): Witness {
    w.(facts := Restamp(w.facts, path, identity), failedReads := w.failedReads - {path},
       revision := w.revision + Changes(w, path, identity),
       regularFacts := w.regularFacts + (set s | s in w.namespaceFacts && s.path == path))
  }

  /** An authoritative read of a known source; `content`: it returned bytes. */
  function ChangedRead(w: Witness, path: string, before: Option<Identity>, content: bool, after: Option<Identity>,
                       source: bool): Witness {
    if Get(w.facts, Slot(false, path)).None? && Get(w.facts, Slot(true, path)).None? then w
    else if before.None? || !before.value.regular || after.None? || !after.value.regular then
      MarkUnprovable(w, NamespaceUnproven, Some(path), source)
    else if !content || before.value.guard != after.value.guard then
      if path in w.failedReads then w else w.(failedReads := w.failedReads + {path}, revision := w.revision + 1)
    else Reread(w, path, before.value.identity)
  }

  // ----- Actions -----

  datatype Action =
    | Observing(path: string, before: Option<Identity>, after: Option<Identity>, loaded: Loaded, source: bool)
    | ObservingPath(path: string, before: Option<Identity>, after: Option<Identity>, presence: bool, loaded: Loaded,
                    source: bool)
    | Marking(about: Option<string>)
    | Resetting
    | Retiring(affected: string -> bool)
    | ReadingChanged(path: string, before: Option<Identity>, content: bool, after: Option<Identity>, source: bool)

  function Act(w: Witness, a: Action): Witness {
    match a
    case Observing(path, before, after, loaded, source) => Observe(w, path, before, after, loaded, source)
    case ObservingPath(path, before, after, presence, loaded, source) =>
      ObservePath(w, path, before, after, presence, loaded, source)
    case Marking(about) => MarkUnprovable(w, CallerInvalidated, about, false)
    case Resetting => Reset(w)
    case Retiring(affected) => Retire(w, affected)
    case ReadingChanged(path, before, content, after, source) => ChangedRead(w, path, before, content, after, source)
  }

  function Acted(w: Witness, actions: seq<Action>, n: nat): Witness
    requires n <= |actions|
  {
    if n == 0 then w else Act(Acted(w, actions, n - 1), actions[n - 1])
  }

  // ----- Facts are never restamped -----

  predicate Distinct(facts: seq<Fact>) {
    forall i, j :: 0 <= i < j < |facts| ==> facts[i].slot != facts[j].slot
  }

  lemma GetIs(facts: seq<Fact>, i: nat)
    requires Distinct(facts) && i < |facts|
    ensures Get(facts, facts[i].slot) == Some(facts[i].identity)
  {
    var j := Find(facts, facts[i].slot, 0);
    assert j <= i;
  }

  /** `v` is `w` after a load that consumed `f`: at most that fact is new, none is changed or
      dropped, and a disagreement leaves the witness rejecting. */
  predicate Recorded(w: Witness, v: Witness, path: string, f: Option<Fact>) {
    && Distinct(v.facts) && v.epoch == w.epoch && v.failedReads == w.failedReads
    && (v.facts == w.facts || (f.Some? && Get(w.facts, f.value.slot).None? && v.facts == w.facts + [f.value]))
    && (f.None? ==> v.unprovable)
    && (f.Some? && Get(w.facts, f.value.slot).Some? && Get(w.facts, f.value.slot).value != f.value.identity ==>
          v.facts == w.facts && (v.unprovable || path in v.failedReads))
  }

  /** The revision stands still only while the proof does. */
  predicate Tracks(w: Witness, v: Witness) {
    && v.revision >= w.revision && v.epoch >= w.epoch
    && (v.revision == w.revision ==>
          v.facts == w.facts && v.failedReads == w.failedReads && v.epoch == w.epoch && v.unprovable == w.unprovable)
  }

  lemma AppendedIsFound(facts: seq<Fact>, f: Fact)
    requires Get(facts, f.slot).None?
    ensures Get(facts + [f], f.slot) == Some(f.identity)
  {
    var more := facts + [f];
    var i := Find(more, f.slot, 0);
    assert more[|facts|] == f;
  }

  lemma RecordKeeps(w: Witness, noted: Witness, path: string, f: Fact, regular: bool, source: bool)
    requires Distinct(w.facts) && noted.facts == w.facts && noted.epoch == w.epoch && noted.revision == w.revision
    requires noted.failedReads == w.failedReads && noted.unprovable == w.unprovable
    ensures Recorded(w, Record(noted, path, f.slot, f.identity, regular, source), path, Some(f))
    ensures Tracks(w, Record(noted, path, f.slot, f.identity, regular, source))
  {
  }

  lemma MarkKeeps(w: Witness, reason: Reason, path: Option<string>, source: bool)
    ensures var v := MarkUnprovable(w, reason, path, source);
      v.facts == w.facts && v.epoch == w.epoch && v.failedReads == w.failedReads && v.unprovable && Tracks(w, v)
  {
  }

  /** The fact a load is checked against. */
  function Consumed(w: Witness, a: Action): Option<Fact> {
    if a.Observing? && a.before.Some? && a.after.Some? && a.after.value.guard == a.before.value.guard then
      Some(ContentFact(w, a.path, a.before.value, a.loaded))
    else if a.ObservingPath? && a.before.Some? && a.after.Some?
            && WindowHolds(a.before.value, a.after.value, a.presence, a.loaded) then
      Some(PathFact(w, a.path, a.before.value,
                    StableDirectory(a.before.value, a.after.value, a.presence, a.loaded), a.presence))
    else None
  }

  lemma ObserveKeeps(w: Witness, a: Action)
    requires Distinct(w.facts) && a.Observing?
    ensures Recorded(w, Act(w, a), a.path, Consumed(w, a)) && Tracks(w, Act(w, a))
  {
    var f := Consumed(w, a);
    if f.None? {
      MarkKeeps(w, IdentityUnavailable, Some(a.path), a.source);
      MarkKeeps(w, ChangedDuringLoad, Some(a.path), a.source);
    } else {
      var regular := a.before.value.regular && a.after.value.regular;
      var noted := NoteFact(w, f.value.slot, f.value.slot.path == a.path && regular, a.source);
      RecordKeeps(w, noted, a.path, f.value, regular, a.source);
    }
  }

  lemma ObservePathKeeps(w: Witness, a: Action)
    requires Distinct(w.facts) && a.ObservingPath?
    ensures Recorded(w, Act(w, a), a.path, Consumed(w, a)) && Tracks(w, Act(w, a))
  {
    var f := Consumed(w, a);
    if f.None? {
      MarkKeeps(w, IdentityUnavailable, Some(a.path), a.source);
      MarkKeeps(w, ChangedDuringLoad, Some(a.path), a.source);
    } else {
      var regular := a.before.value.regular && a.after.value.regular;
      var noted := NoteFact(w, f.value.slot, f.value.slot.path == a.path && regular, a.source);
      var directory := StableDirectory(a.before.value, a.after.value, a.presence, a.loaded);
      RecordKeeps(w, noted, a.path, f.value, !directory && regular, a.source);
    }
  }

  lemma RecordHolds(w: Witness, path: string, f: Fact, regular: bool, source: bool)
    ensures var v := Record(w, path, f.slot, f.identity, regular, source);
      Get(v.facts, f.slot) == Some(f.identity) || v.unprovable || path in v.failedReads
  {
    if Get(w.facts, f.slot).None? { AppendedIsFound(w.facts, f); }
  }

  /** The fact of a load is on record afterwards, as the load saw it, or the witness rejects. */
  lemma LoadIsOnRecord(w: Witness, a: Action)
    requires a.Observing? || a.ObservingPath?
    ensures var f, v := Consumed(w, a), Act(w, a);
      v.unprovable || a.path in v.failedReads || (f.Some? && Get(v.facts, f.value.slot) == Some(f.value.identity))
  {
    if Consumed(w, a).Some? {
      var f, regular := Consumed(w, a).value, a.before.value.regular && a.after.value.regular;
      var noted := NoteFact(w, f.slot, f.slot.path == a.path && regular, a.source);
      RecordHolds(noted, a.path, f, regular, a.source);
      if a.ObservingPath? {
        var directory := StableDirectory(a.before.value, a.after.value, a.presence, a.loaded);
        RecordHolds(noted, a.path, f, !directory && regular, a.source);
      }
    }
  }

  /** Observing adds at most the fact the load consumed, and changes or drops none; a load
      that disagrees with a fact leaves the witness rejecting. */
  lemma ObservingNeverRestamps(w: Witness, a: Action)
    requires Distinct(w.facts) && (a.Observing? || a.ObservingPath?)
    ensures Recorded(w, Act(w, a), a.path, Consumed(w, a))
  {
    if a.Observing? { ObserveKeeps(w, a); } else { ObservePathKeeps(w, a); }
  }

  lemma {:induction false} UnaffectedFilters(facts: seq<Fact>, n: nat, affected: string -> bool)
    requires n <= |facts|
    ensures forall f :: f in Unaffected(facts, n, affected) <==> f in facts[..n] && !affected(f.slot.path)
  {
    if n > 0 {
      UnaffectedFilters(facts, n - 1, affected);
      assert facts[..n] == facts[..n - 1] + [facts[n - 1]];
    }
  }

  /** Only an authoritative changed-source read replaces a fact, and only about its own
      path and with the identity observed on both sides of the read; only a reset or a
      retirement drops one, and both begin a new epoch. */
  lemma OnlyAuthorityReplacesFacts(w: Witness, a: Action, i: nat)
    requires Distinct(w.facts) && i < |w.facts| && w.facts[i] !in Act(w, a).facts
    ensures var v := Act(w, a);
      || (a.ReadingChanged? && a.path == w.facts[i].slot.path && v.epoch == w.epoch
          && Fact(w.facts[i].slot, a.before.value.identity) in v.facts
          && a.content && a.before.Some? && a.after.Some? && a.before.value.guard == a.after.value.guard)
      || (a.Resetting? && v.epoch == w.epoch + 1)
      || (a.Retiring? && a.affected(w.facts[i].slot.path) && v.epoch == w.epoch + 1)
  {
    var f := w.facts[i];
    assert f in w.facts;
    if a.Observing? || a.ObservingPath? {
      ObservingNeverRestamps(w, a);
    } else if a.Retiring? {
      UnaffectedFilters(w.facts, |w.facts|, a.affected);
      assert w.facts[..|w.facts|] == w.facts;
    } else if a.ReadingChanged? && a.before.Some? {
      var r := Restamp(w.facts, a.path, a.before.value.identity);
      assert r[i] in r;
    }
  }

  /** The revision tracks the proof: while it stands still, so do the facts, the failed
      reads, the epoch and the verdict. */
  lemma RevisionTracksProof(w: Witness, a: Action)
    requires Distinct(w.facts)
    ensures Tracks(w, Act(w, a))
  {
    match a
    case Observing(_, _, _, _, _) => ObserveKeeps(w, a);
    case ObservingPath(_, _, _, _, _, _) => ObservePathKeeps(w, a);
    case Marking(about) => MarkKeeps(w, CallerInvalidated, about, false);
    case ReadingChanged(path, before, content, after, source) =>
      ChangedReadTracks(w, path, before, content, after, source);
    case Resetting =>
    case Retiring(_) =>
  }

  lemma ChangedReadTracks(w: Witness, path: string, before: Option<Identity>, content: bool, after: Option<Identity>,
                          source: bool)
    requires Distinct(w.facts)
    ensures Tracks(w, ChangedRead(w, path, before, content, after, source))
  {
    MarkKeeps(w, NamespaceUnproven, Some(path), source);
    if before.Some? {
      var id := before.value.identity;
      if !Stamped(w.facts, Slot(false, path), id) && !Stamped(w.facts, Slot(true, path), id) {
        RestampIsNothing(w.facts, path, id);
      }
    }
  }

  lemma RestampIsNothing(facts: seq<Fact>, path: string, identity: string)
    requires Distinct(facts)
    requires !Stamped(facts, Slot(false, path), identity) && !Stamped(facts, Slot(true, path), identity)
    ensures Restamp(facts, path, identity) == facts
  {
    forall i | 0 <= i < |facts| ensures Restamp(facts, path, identity)[i] == facts[i] { GetIs(facts, i); }
  }

  lemma DistinctStays(w: Witness, a: Action)
    requires Distinct(w.facts)
    ensures Distinct(Act(w, a).facts)
  {
    if a.Observing? || a.ObservingPath? {
      ObservingNeverRestamps(w, a);
    } else if a.Retiring? {
      UnaffectedIsDistinct(w.facts, |w.facts|, a.affected);
    }
  }

  lemma {:induction false} UnaffectedIsDistinct(facts: seq<Fact>, n: nat, affected: string -> bool)
    requires n <= |facts| && Distinct(facts)
    ensures Distinct(Unaffected(facts, n, affected))
  {
    if n > 0 {
      UnaffectedIsDistinct(facts, n - 1, affected);
      UnaffectedFilters(facts, n - 1, affected);
      var few := Unaffected(facts, n - 1, affected);
      forall i | 0 <= i < |few| ensures few[i].slot != facts[n - 1].slot {
        assert few[i] in few;
        var k :| 0 <= k < n - 1 && facts[k] == few[i];
      }
    }
  }

  // ----- The object -----

  class LoadedConfigurationWitness {
    var facts: seq<Fact>
    var failedReads: set<string>
    var revision: nat
    var epoch: nat
    var unprovable: bool
    var namespaceOnly: bool
    var resetOnly: bool
    var failures: set<string>
    var namespaceFacts: set<Slot>
    var regularFacts: set<Slot>

    function View(): Witness
      reads this
    {
      Witness(facts, failedReads, revision, epoch, unprovable, namespaceOnly, resetOnly, failures, namespaceFacts,
              regularFacts)
    }

    constructor ()
      ensures View() == New
    {
      facts, failedReads, revision, epoch, unprovable := [], {}, 0, 0, false;
      namespaceOnly, resetOnly, failures, namespaceFacts, regularFacts := true, true, {}, {}, {};
    }

    method DoMarkUnprovable(reason: Reason, path: Option<string>, source: bool)
      modifies this
      ensures View() == MarkUnprovable(old(View()), reason, path, source)
    {
      var mine := source && path.Some? && |failures| < MAX_WITNESS_PATHS
        && (reason.LoadedIdentityChanged? || reason.ChangedDuringLoad? || reason.IdentityUnavailable?);
      if mine { failures := failures + {path.value}; } else { resetOnly := false; }
      if !mine || reason.IdentityUnavailable? { namespaceOnly := false; }
      if unprovable { return; }
      unprovable := true;
      revision := revision + 1;
    }

    method DoNoteFact(slot: Slot, regular: bool, source: bool)
      modifies this`namespaceFacts, this`regularFacts
      ensures View() == NoteFact(old(View()), slot, regular, source)
    {
      if !source {
        namespaceFacts := namespaceFacts - {slot};
        regularFacts := regularFacts - {slot};
      } else if Get(facts, slot).None? && |facts| < MAX_WITNESS_PATHS {
        namespaceFacts := namespaceFacts + {slot};
        if regular { regularFacts := regularFacts + {slot}; }
      }
    }

    method DoRecord(path: string, slot: Slot, identity: string, regular: bool, source: bool)
      modifies this
      ensures View() == Record(old(View()), path, slot, identity, regular, source)
    {
      var previous := Get(facts, slot);
      if previous.Some? {
        if previous.value == identity { return; }
        if !regular || path != slot.path || path !in failedReads {
          DoMarkUnprovable(LoadedIdentityChanged, Some(path), source);
        }
      } else if |facts| >= MAX_WITNESS_PATHS {
        DoMarkUnprovable(Capacity, Some(path), source);
      } else {
        facts := facts + [Fact(slot, identity)];
        revision := revision + 1;
      }
    }

    method DoObserve(path: string, before: Option<Identity>, after: Option<Identity>, loaded: Loaded, source: bool)
      modifies this
      ensures View() == Observe(old(View()), path, before, after, loaded, source)
    {
      if before.None? || after.None? {
        DoMarkUnprovable(IdentityUnavailable, Some(path), source);
      } else if after.value.guard != before.value.guard {
        DoMarkUnprovable(ChangedDuringLoad, Some(path), source);
      } else {
        var f := ContentFact(View(), path, before.value, loaded);
        var regular := before.value.regular && after.value.regular;
        DoNoteFact(f.slot, f.slot.path == path && regular, source);
        DoRecord(path, f.slot, f.identity, regular, source);
      }
    }

    method DoObservePath(path: string, before: Option<Identity>, after: Option<Identity>, presence: bool,
                         loaded: Loaded, source: bool)
      modifies this
      ensures View() == ObservePath(old(View()), path, before, after, presence, loaded, source)
    {
      if before.None? || after.None? {
        DoMarkUnprovable(IdentityUnavailable, Some(path), source);
      } else if !WindowHolds(before.value, after.value, presence, loaded) {
        DoMarkUnprovable(ChangedDuringLoad, Some(path), source);
      } else {
        var directory := StableDirectory(before.value, after.value, presence, loaded);
        var f := PathFact(View(), path, before.value, directory, presence);
        var regular := before.value.regular && after.value.regular;
        DoNoteFact(f.slot, f.slot.path == path && regular, source);
        DoRecord(path, f.slot, f.identity, !directory && regular, source);
      }
    }

    /** The facts about `path`, of either kind, take the identity just read. */
    method Replace(path: string, identity: string)
      modifies this`facts
      ensures facts == Restamp(old(facts), path, identity)
    {
      for i := 0 to |facts|
        invariant |facts| == |old(facts)|
        invariant forall k :: 0 <= k < i ==> facts[k] == Restamp(old(facts), path, identity)[k]
        invariant forall k :: i <= k < |facts| ==> facts[k] == old(facts)[k]
      {
        if facts[i].slot.path == path { facts := facts[i := Fact(facts[i].slot, identity)]; }
      }
    }

    method DoChangedRead(path: string, before: Option<Identity>, content: bool, after: Option<Identity>, source: bool)
      modifies this
      ensures View() == ChangedRead(old(View()), path, before, content, after, source)
    {
      if Get(facts, Slot(false, path)).None? && Get(facts, Slot(true, path)).None? { return; }
      if before.None? || !before.value.regular || after.None? || !after.value.regular {
        DoMarkUnprovable(NamespaceUnproven, Some(path), source);
        return;
      }
      if !content || before.value.guard != after.value.guard {
        if path !in failedReads {
          failedReads := failedReads + {path};
          revision := revision + 1;
        }
        return;
      }
      DoReread(path, before.value.identity);
    }

    method DoReread(path: string, identity: string)
      modifies this
      ensures View() == Reread(old(View()), path, identity)
    {
      revision := revision + Changes(View(), path, identity);
      Replace(path, identity);
      failedReads := failedReads - {path};
      regularFacts := regularFacts + (set s | s in namespaceFacts && s.path == path);
    }

    method DoReset()
      modifies this
      ensures View() == Reset(old(View()))
    {
      facts, failedReads, unprovable, namespaceOnly, resetOnly := [], {}, false, true, true;
      failures, namespaceFacts, regularFacts := {}, {}, {};
      revision, epoch := revision + 1, epoch + 1;
    }

    method DoRetire(affected: string -> bool) returns (retired: bool)
      modifies this
      ensures View() == Retire(old(View()), affected) && retired == (!old(unprovable) && old(failedReads) == {})
    {
      if unprovable || failedReads != {} { return false; }
      var kept: seq<Fact> := [];
      for n := 0 to |facts|
        invariant View() == old(View()) && kept == Unaffected(facts, n, affected)
      {
        if !affected(facts[n].slot.path) { kept := kept + [facts[n]]; }
      }
      namespaceFacts := Spared(namespaceFacts, facts, affected);
      regularFacts := Spared(regularFacts, facts, affected);
      facts := kept;
      revision, epoch := revision + 1, epoch + 1;
      retired := true;
    }
  }
}
