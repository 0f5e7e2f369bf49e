/** The scan before publication. */
module RequestInputs {
  // A query shares its lookups, and ends in a scan with fresh lookups.

  import opened Options
  import opened ConfigurationWitness

  /** What a lookup made as number `n` of all lookups observes: the file system may change
      between any two of them. */
  type FileSystem = (nat, Slot) -> Option<Identity>

  const MAX_PHASE_BYTES: nat := 32 * 1024 * 1024

  /** The lookups of one phase, within a memory budget. */
  datatype Phase = Phase(known: map<Slot, Identity>, bytes: nat)

  const NewPhase := Phase(map[], 0)

  function Cost(slot: Slot, id: Identity): nat {
    256 + 2 * (2 + |slot.path| + |id.identity| + |id.guard| + |id.witnessPath|
               + if id.absence.Some? then |id.absence.value.0| + |id.absence.value.1| else 0)
  }

  datatype Looked = Looked(value: Option<Identity>, phase: Phase, clock: nat)

  /** A lookup through the phase; over budget it is simply not kept. */
  function Look(fs: FileSystem, p: Phase, clock: nat, slot: Slot): Looked {
    if slot in p.known then Looked(Some(p.known[slot]), p, clock)
    else
      var v := fs(clock, slot);
      if v.Some? && p.bytes + Cost(slot, v.value) <= MAX_PHASE_BYTES
      then Looked(v, Phase(p.known[slot := v.value], p.bytes + Cost(slot, v.value)), clock + 1)
      else Looked(v, p, clock + 1)
  }

  // ----- The scan of one witness -----

  /** An owner of a proof; `current`: the owner is still in use. */
  datatype Owner = Owner(w: Witness, current: bool)

  predicate Scannable(o: Owner, epoch: nat) {
    && o.current && o.w.failedReads == {} && o.w.epoch == epoch
    && (o.w.unprovable ==> o.w.namespaceOnly)
  }

  predicate CanRecover(w: Witness, slot: Slot, now: Option<Identity>) {
    now.Some? && slot in w.namespaceFacts && !(slot in w.regularFacts && now.value.regular)
  }

  /** A scan so far: rejected, or with the stale paths that a replacement could recover. */
  datatype Scan = Scan(phase: Phase, clock: nat, rejected: bool, stale: set<string>)

  predicate Matches(f: Fact, seen: Option<Identity>) { seen.Some? && seen.value.identity == f.identity }

  function ScanTo(fs: FileSystem, w: Witness, p: Phase, clock: nat, n: nat): Scan
    requires n <= |w.facts|
  {
    if n == 0 then Scan(p, clock, false, w.failures)
    else
      var s, f := ScanTo(fs, w, p, clock, n - 1), w.facts[n - 1];
      if s.rejected then s
      else
        var l := Look(fs, s.phase, s.clock, f.slot);
        var t := s.(phase := l.phase, clock := l.clock);
        if Matches(f, l.value) then t
        else if CanRecover(w, f.slot, l.value) then t.(stale := s.stale + {f.slot.path})
        else t.(rejected := true)
  }

  /** The scan holds: every fact matched and the proof is intact. */
  predicate Holds(o: Owner, epoch: nat, s: Scan) {
    Scannable(o, epoch) && !s.rejected && s.stale == {} && !o.w.unprovable
  }

  datatype Scanned = Scanned(ok: bool, phase: Phase, clock: nat)

  function ScanOwner(fs: FileSystem, o: Owner, epoch: nat, p: Phase, clock: nat): Scanned {
    if !Scannable(o, epoch) then Scanned(false, p, clock)
    else
      var s := ScanTo(fs, o.w, p, clock, |o.w.facts|);
      Scanned(Holds(o, epoch, s), s.phase, s.clock)
  }

  method ScanWitness(fs: FileSystem, o: Owner, epoch: nat, p: Phase, clock: nat) returns (r: Scanned)
    ensures r == ScanOwner(fs, o, epoch, p, clock)
  {
    if !Scannable(o, epoch) { return Scanned(false, p, clock); }
    var phase, time, stale := p, clock, o.w.failures;
    for n := 0 to |o.w.facts|
      invariant ScanTo(fs, o.w, p, clock, n) == Scan(phase, time, false, stale)
    {
      var f := o.w.facts[n];
      var l := Look(fs, phase, time, f.slot);
      phase, time := l.phase, l.clock;
      if !Matches(f, l.value) {
        if !CanRecover(o.w, f.slot, l.value) {
          RejectionStays(fs, o.w, p, clock, n + 1, |o.w.facts|);
          return Scanned(false, phase, time);
        }
        stale := stale + {f.slot.path};
      }
    }
    r := Scanned(stale == {} && !o.w.unprovable, phase, time);
  }

  lemma {:induction false} RejectionStays(fs: FileSystem, w: Witness, p: Phase, clock: nat, m: nat, n: nat)
    requires m <= n <= |w.facts| && ScanTo(fs, w, p, clock, m).rejected
    ensures ScanTo(fs, w, p, clock, n) == ScanTo(fs, w, p, clock, m)
  {
    if m < n { RejectionStays(fs, w, p, clock, m, n - 1); }
  }

  // ----- Lookups of a phase are made in the phase -----

  /** Some lookup from `from` on observed this identity. */
  ghost predicate SeenSince(fs: FileSystem, slot: Slot, id: Identity, from: nat, to: nat) {
    exists t: nat :: from <= t < to && fs(t, slot) == Some(id)
  }

  ghost predicate Fresh(fs: FileSystem, p: Phase, from: nat, to: nat) {
    forall slot :: slot in p.known ==> SeenSince(fs, slot, p.known[slot], from, to)
  }

  lemma SeenLater(fs: FileSystem, slot: Slot, id: Identity, from: nat, to: nat, later: nat)
    requires SeenSince(fs, slot, id, from, to) && to <= later
    ensures SeenSince(fs, slot, id, from, later)
  {
    var t: nat :| from <= t < to && fs(t, slot) == Some(id);
  }

  lemma LookIsFresh(fs: FileSystem, p: Phase, clock: nat, slot: Slot, from: nat)
    requires Fresh(fs, p, from, clock) && from <= clock
    ensures var l := Look(fs, p, clock, slot);
      && l.clock >= clock && Fresh(fs, l.phase, from, l.clock)
      && (l.value.Some? ==> SeenSince(fs, slot, l.value.value, from, l.clock))
  {
    var l := Look(fs, p, clock, slot);
    if slot !in p.known {
      if l.value.Some? { assert fs(clock, slot) == Some(l.value.value); }
      forall other | other in l.phase.known ensures SeenSince(fs, other, l.phase.known[other], from, l.clock) {
        if other in p.known { SeenLater(fs, other, p.known[other], from, clock, l.clock); }
      }
    }
  }

  /** A fact matched a lookup made from `from` on. */
  ghost predicate Confirmed(fs: FileSystem, f: Fact, from: nat, to: nat) {
    exists id :: SeenSince(fs, f.slot, id, from, to) && id.identity == f.identity
  }

  lemma ConfirmedLater(fs: FileSystem, f: Fact, from: nat, to: nat, later: nat)
    requires Confirmed(fs, f, from, to) && to <= later
    ensures Confirmed(fs, f, from, later)
  {
    var id :| SeenSince(fs, f.slot, id, from, to) && id.identity == f.identity;
    SeenLater(fs, f.slot, id, from, to, later);
  }

  lemma {:induction false} ScanConfirms(fs: FileSystem, w: Witness, p: Phase, clock: nat, n: nat, from: nat)
    requires n <= |w.facts| && Fresh(fs, p, from, clock) && from <= clock
    ensures var s := ScanTo(fs, w, p, clock, n);
      && s.clock >= clock && Fresh(fs, s.phase, from, s.clock)
      && (!s.rejected && s.stale == {} ==> forall i :: 0 <= i < n ==> Confirmed(fs, w.facts[i], from, s.clock))
  {
    if n > 0 {
      ScanConfirms(fs, w, p, clock, n - 1, from);
      var s, f := ScanTo(fs, w, p, clock, n - 1), w.facts[n - 1];
      if !s.rejected {
        LookIsFresh(fs, s.phase, s.clock, f.slot, from);
        ScanStepConfirms(fs, w, n, s, from);
      }
    }
  }

  lemma ScanStepConfirms(fs: FileSystem, w: Witness, n: nat, s: Scan, from: nat)
    requires 0 < n <= |w.facts| && !s.rejected && s.stale == {}
      ==> forall i :: 0 <= i < n - 1 ==> Confirmed(fs, w.facts[i], from, s.clock)
    requires 0 < n <= |w.facts|
    requires Fresh(fs, s.phase, from, s.clock) && from <= s.clock
    ensures var l := Look(fs, s.phase, s.clock, w.facts[n - 1].slot);
      !s.rejected && s.stale == {} && Matches(w.facts[n - 1], l.value) ==>
        forall i :: 0 <= i < n ==> Confirmed(fs, w.facts[i], from, l.clock)
  {
    var f := w.facts[n - 1];
    var l := Look(fs, s.phase, s.clock, f.slot);
    LookIsFresh(fs, s.phase, s.clock, f.slot, from);
    if !s.rejected && s.stale == {} && Matches(f, l.value) {
      forall i | 0 <= i < n ensures Confirmed(fs, w.facts[i], from, l.clock) {
        if i < n - 1 { ConfirmedLater(fs, w.facts[i], from, s.clock, l.clock); }
      }
    }
  }

  // ----- The query -----

  /** A successful check of an owner: the epoch it was captured in and the revision scanned. */
  datatype Input = Input(epoch: nat, revision: nat)

  datatype Query = Query(owners: seq<Owner>, inputs: map<nat, Input>, order: seq<nat>, phase: Phase, clock: nat)

  /** A freshness check of an owner, captured in `epoch`: skipped when the same revision
      passed before in this query. */
  datatype Checked = Checked(ok: bool, query: Query)

  function Check(fs: FileSystem, q: Query, owner: nat, epoch: nat): Checked
    requires owner < |q.owners|
  {
    var o := q.owners[owner];
    if !Scannable(o, epoch) then Checked(false, q)
    else if owner in q.inputs && q.inputs[owner].epoch != epoch then Checked(false, q)
    else if owner in q.inputs && q.inputs[owner].revision == o.w.revision then Checked(true, q)
    else
      var s := ScanOwner(fs, o, epoch, q.phase, q.clock);
      var t := q.(phase := s.phase, clock := s.clock);
      if !s.ok then Checked(false, t)
      else
        Checked(true, t.(inputs := q.inputs[owner := Input(epoch, o.w.revision)],
                         order := if owner in q.inputs then q.order else q.order + [owner]))
  }

  datatype Step = Checking(owner: nat, epoch: nat) | Acting(owner: nat, action: Action) | Leaving(owner: nat)

  function Advance(fs: FileSystem, q: Query, s: Step): Query {
    if s.owner >= |q.owners| then q
    else
      match s
      case Checking(owner, epoch) => Check(fs, q, owner, epoch).query
      case Acting(owner, action) =>
        q.(owners := q.owners[owner := q.owners[owner].(w := Act(q.owners[owner].w, action))])
      case Leaving(owner) => q.(owners := q.owners[owner := q.owners[owner].(current := false)])
  }

  /** The body of the query: any mix of loads, checks and invalidations. */
  function Body(fs: FileSystem, q: Query, steps: seq<Step>, n: nat): Query
    requires n <= |steps|
  {
    if n == 0 then q else Advance(fs, Body(fs, q, steps, n - 1), steps[n - 1])
  }

  /** The final union over the first `n` owners checked; it starts with no lookups. */
  function Final(fs: FileSystem, q: Query, n: nat): Scanned
    requires n <= |q.order|
  {
    if n == 0 then Scanned(true, NewPhase, q.clock)
    else
      var s, owner := Final(fs, q, n - 1), q.order[n - 1];
      if !s.ok || owner >= |q.owners| || owner !in q.inputs then s.(ok := false)
      else ScanOwner(fs, q.owners[owner], q.inputs[owner].epoch, s.phase, s.clock)
  }

  method FinalUnion(fs: FileSystem, q: Query) returns (published: bool)
    ensures published == Final(fs, q, |q.order|).ok
  {
    var phase, clock := NewPhase, q.clock;
    for n := 0 to |q.order|
      invariant Final(fs, q, n) == Scanned(true, phase, clock)
    {
      var owner := q.order[n];
      if owner >= |q.owners| || owner !in q.inputs {
        UnavailableStays(fs, q, n + 1, |q.order|);
        return false;
      }
      var s := ScanWitness(fs, q.owners[owner], q.inputs[owner].epoch, phase, clock);
      if !s.ok {
        UnavailableStays(fs, q, n + 1, |q.order|);
        return false;
      }
      phase, clock := s.phase, s.clock;
    }
    published := true;
  }

  lemma {:induction false} UnavailableStays(fs: FileSystem, q: Query, m: nat, n: nat)
    requires m <= n <= |q.order| && !Final(fs, q, m).ok
    ensures !Final(fs, q, n).ok
  {
    if m < n { UnavailableStays(fs, q, m, n - 1); }
  }

  // ----- What publication proves -----

  /** Every owner checked with success is in the final union. */
  ghost predicate Tracked(q: Query) {
    forall owner :: owner in q.inputs <==> owner in q.order
  }

  lemma CheckTracks(fs: FileSystem, q: Query, owner: nat, epoch: nat)
    requires Tracked(q) && owner < |q.owners|
    ensures Tracked(Check(fs, q, owner, epoch).query)
    ensures Check(fs, q, owner, epoch).ok ==>
      && owner in Check(fs, q, owner, epoch).query.inputs
      && Check(fs, q, owner, epoch).query.inputs[owner].epoch == epoch
  {
  }

  lemma {:induction false} BodyTracks(fs: FileSystem, q: Query, steps: seq<Step>, n: nat)
    requires n <= |steps| && Tracked(q)
    ensures Tracked(Body(fs, q, steps, n))
    ensures forall owner :: owner in q.inputs ==>
      owner in Body(fs, q, steps, n).inputs && Body(fs, q, steps, n).inputs[owner].epoch == q.inputs[owner].epoch
  {
    if n > 0 {
      BodyTracks(fs, q, steps, n - 1);
      var b, s := Body(fs, q, steps, n - 1), steps[n - 1];
      if s.Checking? && s.owner < |b.owners| { CheckTracks(fs, b, s.owner, s.epoch); }
    }
  }

  /** The proof of an owner at publication: captured in the epoch it still has, intact, and
      every retained fact matched a lookup made after the body ended. */
  ghost predicate Proven(fs: FileSystem, o: Owner, input: Input, from: nat, to: nat) {
    && o.current && o.w.epoch == input.epoch && !o.w.unprovable && o.w.failedReads == {}
    && forall i :: 0 <= i < |o.w.facts| ==> Confirmed(fs, o.w.facts[i], from, to)
  }

  lemma ScanProves(fs: FileSystem, o: Owner, input: Input, p: Phase, clock: nat, from: nat)
    requires Fresh(fs, p, from, clock) && from <= clock && ScanOwner(fs, o, input.epoch, p, clock).ok
    ensures var s := ScanOwner(fs, o, input.epoch, p, clock);
      s.clock >= clock && Fresh(fs, s.phase, from, s.clock) && Proven(fs, o, input, from, s.clock)
  {
    ScanConfirms(fs, o.w, p, clock, |o.w.facts|, from);
  }

  lemma ProvenLater(fs: FileSystem, o: Owner, input: Input, from: nat, to: nat, later: nat)
    requires Proven(fs, o, input, from, to) && to <= later
    ensures Proven(fs, o, input, from, later)
  {
    forall i | 0 <= i < |o.w.facts| ensures Confirmed(fs, o.w.facts[i], from, later) {
      ConfirmedLater(fs, o.w.facts[i], from, to, later);
    }
  }

  ghost predicate AllProven(fs: FileSystem, q: Query, n: nat, to: nat)
    requires n <= |q.order|
  {
    forall i :: 0 <= i < n ==> ProvenAt(fs, q, i, to)
  }

  ghost predicate ProvenAt(fs: FileSystem, q: Query, i: nat, to: nat)
    requires i < |q.order|
  {
    var owner := q.order[i];
    owner < |q.owners| && owner in q.inputs && Proven(fs, q.owners[owner], q.inputs[owner], q.clock, to)
  }

  lemma {:induction false} FinalProves(fs: FileSystem, q: Query, n: nat)
    requires n <= |q.order| && Final(fs, q, n).ok
    ensures Final(fs, q, n).clock >= q.clock && Fresh(fs, Final(fs, q, n).phase, q.clock, Final(fs, q, n).clock)
    ensures AllProven(fs, q, n, Final(fs, q, n).clock)
  {
    if n > 0 {
      FinalProves(fs, q, n - 1);
      var s, owner, end := Final(fs, q, n - 1), q.order[n - 1], Final(fs, q, n).clock;
      ScanProves(fs, q.owners[owner], q.inputs[owner], s.phase, s.clock, q.clock);
      forall i | 0 <= i < n ensures ProvenAt(fs, q, i, end) {
        if i < n - 1 {
          assert ProvenAt(fs, q, i, s.clock);
          ProvenLater(fs, q.owners[q.order[i]], q.inputs[q.order[i]], q.clock, s.clock, end);
        }
      }
    }
  }

  /** Whatever a guarded query loads, checks and invalidates, and however the file system
      changes: if it publishes, every owner checked during it was captured in the epoch it
      still has, is intact, and all its facts matched lookups made after the body ended.
      Lookups shared during the body, or handed over by a preparation, never count. */
  lemma PublishedResultsAreProven(fs: FileSystem, start: Query, steps: seq<Step>, owner: nat)
    requires Tracked(start)
    requires var q := Body(fs, start, steps, |steps|); owner in q.inputs && Final(fs, q, |q.order|).ok
    ensures var q := Body(fs, start, steps, |steps|);
      owner < |q.owners| && Proven(fs, q.owners[owner], q.inputs[owner], q.clock, Final(fs, q, |q.order|).clock)
  {
    var q := Body(fs, start, steps, |steps|);
    BodyTracks(fs, start, steps, |steps|);
    FinalProves(fs, q, |q.order|);
    assert owner in q.order;
    var i :| 0 <= i < |q.order| && q.order[i] == owner;
    assert ProvenAt(fs, q, i, Final(fs, q, |q.order|).clock);
  }

  // ----- What is published -----

  /** From here on the file system stands still. */
  ghost predicate Steady(fs: FileSystem, from: nat) {
    forall t: nat, slot :: t >= from ==> fs(t, slot) == fs(from, slot)
  }

  /** An owner whose proof is whole: still in use and in the epoch it was captured in, with
      nothing failed, nothing unprovable, and each fact as the file system has it. */
  predicate Whole(fs: FileSystem, o: Owner, epoch: nat, at: nat) {
    && o.current && o.w.epoch == epoch && o.w.failures == {} && o.w.failedReads == {} && !o.w.unprovable
    && forall i :: 0 <= i < |o.w.facts| ==> Matches(o.w.facts[i], fs(at, o.w.facts[i].slot))
  }

  lemma LookIsSteady(fs: FileSystem, p: Phase, clock: nat, slot: Slot, from: nat)
    requires Steady(fs, from) && Fresh(fs, p, from, clock) && from <= clock
    ensures Look(fs, p, clock, slot).value == fs(from, slot)
  {
    if slot in p.known {
      var t: nat :| from <= t < clock && fs(t, slot) == Some(p.known[slot]);
    }
  }

  lemma {:induction false} SteadyScan(fs: FileSystem, w: Witness, p: Phase, clock: nat, n: nat, from: nat)
    requires n <= |w.facts| && Steady(fs, from) && Fresh(fs, p, from, clock) && from <= clock
    ensures var s := ScanTo(fs, w, p, clock, n);
      (!s.rejected && s.stale == {}) <==>
        (w.failures == {} && forall i :: 0 <= i < n ==> Matches(w.facts[i], fs(from, w.facts[i].slot)))
  {
    if n > 0 {
      SteadyScan(fs, w, p, clock, n - 1, from);
      ScanConfirms(fs, w, p, clock, n - 1, from);
      var s, f := ScanTo(fs, w, p, clock, n - 1), w.facts[n - 1];
      if !s.rejected {
        LookIsSteady(fs, s.phase, s.clock, f.slot, from);
        assert f.slot.path in s.stale + {f.slot.path};
      }
    }
  }

  /** On a file system that stands still, a scan passes exactly the owners that are whole. */
  lemma SteadyScanExactly(fs: FileSystem, o: Owner, epoch: nat, p: Phase, clock: nat, from: nat)
    requires Steady(fs, from) && Fresh(fs, p, from, clock) && from <= clock
    ensures ScanOwner(fs, o, epoch, p, clock).ok <==> Whole(fs, o, epoch, from)
  {
    SteadyScan(fs, o.w, p, clock, |o.w.facts|, from);
  }

  predicate WholeAt(fs: FileSystem, q: Query, i: nat)
    requires i < |q.order|
  {
    var owner := q.order[i];
    owner < |q.owners| && owner in q.inputs && Whole(fs, q.owners[owner], q.inputs[owner].epoch, q.clock)
  }

  lemma FinalStep(fs: FileSystem, q: Query, n: nat, s: Scanned)
    requires 0 < n <= |q.order| && Steady(fs, q.clock)
    requires s == Final(fs, q, n - 1) && s.ok && s.clock >= q.clock && Fresh(fs, s.phase, q.clock, s.clock)
    ensures Final(fs, q, n).ok <==> WholeAt(fs, q, n - 1)
  {
    var owner := q.order[n - 1];
    if owner < |q.owners| && owner in q.inputs {
      SteadyScanExactly(fs, q.owners[owner], q.inputs[owner].epoch, s.phase, s.clock, q.clock);
    }
  }

  /** A query publishes exactly when all its checked owners are whole at the end, as long as
      the file system stands still from the end of its body on. */
  lemma {:induction false} PublishesExactly(fs: FileSystem, q: Query, n: nat)
    requires n <= |q.order| && Steady(fs, q.clock)
    ensures Final(fs, q, n).ok <==> forall i :: 0 <= i < n ==> WholeAt(fs, q, i)
  {
    if n > 0 {
      PublishesExactly(fs, q, n - 1);
      if Final(fs, q, n - 1).ok {
        FinalProves(fs, q, n - 1);
        FinalStep(fs, q, n, Final(fs, q, n - 1));
      }
    }
  }

  /** A check during the body passes exactly the owners captured in one epoch alone that are
      whole, or that passed at this revision before and can still be scanned. */
  lemma ChecksExactly(fs: FileSystem, q: Query, owner: nat, epoch: nat, from: nat)
    requires owner < |q.owners| && Steady(fs, from) && Fresh(fs, q.phase, from, q.clock) && from <= q.clock
    ensures var o := q.owners[owner];
      Check(fs, q, owner, epoch).ok <==>
        && (owner in q.inputs ==> q.inputs[owner].epoch == epoch)
        && (Whole(fs, o, epoch, from)
            || (owner in q.inputs && q.inputs[owner].revision == o.w.revision && Scannable(o, epoch)))
  {
    SteadyScanExactly(fs, q.owners[owner], epoch, q.phase, q.clock, from);
  }

  /** A check that is skipped for its revision is about the very facts that passed. */
  lemma {:induction false} SkippedCheckIsSameProof(w: Witness, actions: seq<Action>, n: nat)
    requires n <= |actions| && Distinct(w.facts)
    ensures Distinct(Acted(w, actions, n).facts) && Tracks(w, Acted(w, actions, n))
  {
    if n > 0 {
      SkippedCheckIsSameProof(w, actions, n - 1);
      RevisionTracksProof(Acted(w, actions, n - 1), actions[n - 1]);
      DistinctStays(Acted(w, actions, n - 1), actions[n - 1]);
    }
  }

  // ----- The object -----

  /** The request-local state of the module. */
  class RequestInputValidation {
    var inputs: map<nat, Input>
    var order: seq<nat>
    var phase: Phase
    var clock: nat

    function View(owners: seq<Owner>): Query
      reads this
    {
      Query(owners, inputs, order, phase, clock)
    }

    constructor ()
      ensures inputs == map[] && order == [] && phase == NewPhase && clock == 0
    {
      inputs, order, phase, clock := map[], [], NewPhase, 0;
    }

    method Lookup(fs: FileSystem, slot: Slot) returns (value: Option<Identity>)
      modifies this`phase, this`clock
      ensures var l := Look(fs, old(phase), old(clock), slot); value == l.value && phase == l.phase && clock == l.clock
    {
      if slot in phase.known { return Some(phase.known[slot]); }
      value := fs(clock, slot);
      clock := clock + 1;
      if value.Some? && phase.bytes + Cost(slot, value.value) <= MAX_PHASE_BYTES {
        phase := Phase(phase.known[slot := value.value], phase.bytes + Cost(slot, value.value));
      }
    }

    method Validate(fs: FileSystem, owners: seq<Owner>, owner: nat, epoch: nat) returns (ok: bool)
      requires owner < |owners|
      modifies this
      ensures var c := Check(fs, old(View(owners)), owner, epoch); ok == c.ok && View(owners) == c.query
    {
      var o := owners[owner];
      if !Scannable(o, epoch) { return false; }
      if owner in inputs && inputs[owner].epoch != epoch { return false; }
      if owner in inputs && inputs[owner].revision == o.w.revision { return true; }
      var s := ScanWitness(fs, o, epoch, phase, clock);
      phase, clock := s.phase, s.clock;
      if !s.ok { return false; }
      if owner !in inputs { order := order + [owner]; }
      inputs := inputs[owner := Input(epoch, o.w.revision)];
      ok := true;
    }

    /** The end of a guarded query: fresh lookups, then publication, then nothing is kept. */
    method Publish(fs: FileSystem, owners: seq<Owner>) returns (published: bool)
      modifies this
      ensures published == Final(fs, old(View(owners)), |old(order)|).ok
      ensures inputs == map[] && order == [] && phase == NewPhase
    {
      published := FinalUnion(fs, Query(owners, inputs, order, phase, clock));
      inputs, order, phase := map[], [], NewPhase;
    }
  }
}
