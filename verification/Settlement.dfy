/** Every record has exactly one owner, and is settled at most once, in every run of the
    parent against any Worker whatsoever. */
module Settlement {
  import opened Options
  import opened Mutations
  import opened Lanes
  import opened Supervisor
  import PendingReads

  // ----- Who owns a record -----

  ghost function EditHandles(edits: seq<Edit>): (r: seq<nat>)
    ensures |r| == |edits| && forall i :: 0 <= i < |edits| ==> r[i] == edits[i].handle
  {
    seq(|edits|, i requires 0 <= i < |edits| => edits[i].handle)
  }

  ghost function ReadHandles(queries: seq<Read>): (r: seq<nat>)
    ensures |r| == |queries| && forall i :: 0 <= i < |queries| ==> r[i] == queries[i].handle
  {
    seq(|queries|, i requires 0 <= i < |queries| => queries[i].handle)
  }

  ghost function SettledHandles(settled: seq<Settlement>): (r: seq<nat>)
    ensures |r| == |settled| && forall i :: 0 <= i < |settled| ==> r[i] == settled[i].handle
  {
    seq(|settled|, i requires 0 <= i < |settled| => settled[i].handle)
  }

  /** How often `h` occurs. */
  ghost function Times(s: seq<nat>, h: nat): nat { multiset(s)[h] }

  ghost function Holds(s: Slot, h: nat): nat {
    match s
    case Idle => 0
    case Editing(e, _, _) => if e.handle == h then 1 else 0
    case Reading(q, _, _, _) => if q.handle == h then 1 else 0
  }

  /** The number of places that own the record `h`: the queues, the two slots, the log of
      settlements, and the records lost. */
  ghost function Owners(p: Parent, h: nat): nat {
    Times(EditHandles(p.edits), h) + Times(ReadHandles(p.queries), h) + Holds(p.active, h) + Holds(p.detached, h)
    + Times(SettledHandles(p.settled), h) + Times(ReadHandles(p.lost), h)
  }

  // ----- What moves, moves once -----

  lemma TimesConcat(a: seq<nat>, b: seq<nat>, h: nat)
    ensures Times(a + b, h) == Times(a, h) + Times(b, h)
  {
  }

  lemma TimesOne(x: nat, h: nat)
    ensures Times([x], h) == if x == h then 1 else 0
  {
  }

  lemma TimesThree(a: seq<nat>, x: nat, b: seq<nat>, h: nat)
    ensures Times(a + ([x] + b), h) == Times(a + b, h) + if x == h then 1 else 0
  {
    TimesConcat(a, [x] + b, h);
    TimesConcat([x], b, h);
    TimesConcat(a, b, h);
    TimesOne(x, h);
  }

  lemma TimesWithout(queries: seq<Read>, at: nat, h: nat)
    requires at < |queries|
    ensures Times(ReadHandles(queries), h)
         == Times(ReadHandles(Without(queries, at)), h) + if queries[at].handle == h then 1 else 0
  {
    var s := ReadHandles(queries);
    assert s == s[..at] + ([s[at]] + s[at + 1..]);
    assert ReadHandles(Without(queries, at)) == s[..at] + s[at + 1..];
    TimesThree(s[..at], s[at], s[at + 1..], h);
  }

  lemma SettledMore(settled: seq<Settlement>, more: seq<Settlement>, h: nat)
    ensures Times(SettledHandles(settled + more), h)
         == Times(SettledHandles(settled), h) + Times(SettledHandles(more), h)
  {
    assert SettledHandles(settled + more) == SettledHandles(settled) + SettledHandles(more);
    TimesConcat(SettledHandles(settled), SettledHandles(more), h);
  }

  lemma SettleOwners(p: Parent, handle: nat, outcome: Outcome, h: nat)
    ensures Owners(Settle(p, handle, outcome), h) == Owners(p, h) + if handle == h then 1 else 0
  {
    SettledMore(p.settled, [Settled(handle, outcome)], h);
    assert SettledHandles([Settled(handle, outcome)]) == [handle];
    TimesOne(handle, h);
  }

  lemma DrainReadsOwners(p: Parent, reason: Cell, code: Code, h: nat)
    ensures Owners(DrainReads(p, reason, code), h) == Owners(p, h)
  {
    SettledMore(p.settled, RejectReads(p.queries, code), h);
    assert SettledHandles(RejectReads(p.queries, code)) == ReadHandles(p.queries);
  }

  lemma DrainEditsOwners(p: Parent, code: Code, h: nat)
    ensures Owners(DrainEdits(p, code), h) == Owners(p, h)
  {
    SettledMore(p.settled, RejectEdits(p.edits, code), h);
    assert SettledHandles(RejectEdits(p.edits, code)) == EditHandles(p.edits);
  }

  lemma SettleActiveOwners(p: Parent, code: Code, h: nat)
    ensures Owners(SettleActive(p, code), h) == Owners(p, h)
  {
    match p.active {
      case Idle =>
      case Editing(e, _, _) => SettleOwners(p, e.handle, Rejected(code), h);
      case Reading(q, _, _, _) =>
        SettleOwners(p, q.handle, Rejected(StrandedCode(CellOf(p.cells, q.handle), code)), h);
    }
  }

  lemma SettleDetachedOwners(p: Parent, code: Code, h: nat)
    requires !p.detached.Editing?
    ensures Owners(SettleDetached(p, code), h) == Owners(p, h)
  {
    if p.detached.Reading? {
      var q := p.detached.query;
      SettleOwners(p, q.handle, Rejected(StrandedCode(CellOf(p.cells, q.handle), code)), h);
    }
  }

  lemma RetireOwners(p: Parent, code: Code, h: nat)
    ensures Owners(Retire(p, code), h) == Owners(p, h)
  {
    var cells := CancelSlot(CancelSlot(p.cells, p.active, SupervisorDisposing), p.detached, SupervisorDisposing);
    var q := p.(disposed := true, cells := cells);
    DrainEditsOwners(q, code, h);
    DrainReadsOwners(DrainEdits(q, code), SupervisorDisposing, code, h);
  }

  lemma FailOwners(p: Parent, terminal: bool, h: nat)
    requires !p.detached.Editing?
    ensures Owners(Fail(p, terminal), h) == Owners(p, h)
  {
    if p.failure.Some? {
      SettleActiveOwners(p, p.failure.value, h);
    } else {
      var q := Shutdown(p, WorkerUnavailable);
      RetireOwners(p.(failure := Some(WorkerUnavailable)), WorkerUnavailable, h);
      SettleActiveOwners(q, WorkerUnavailable, h);
      SettleDetachedOwners(SettleActive(q, WorkerUnavailable), WorkerUnavailable, h);
    }
  }

  lemma BegunOwners(p: Parent, h: nat)
    requires p.edits != [] && p.active.Idle?
    ensures Owners(Begun(p), h) == Owners(p, h)
  {
    var e := p.edits[0];
    assert EditHandles(p.edits) == [e.handle] + EditHandles(p.edits[1..]);
    TimesConcat([e.handle], EditHandles(p.edits[1..]), h);
    TimesOne(e.handle, h);
  }

  lemma StartEditOwners(p: Parent, h: nat)
    requires p.edits != [] && p.active.Idle? && !p.detached.Editing?
    ensures Owners(StartEdit(p), h) == Owners(p, h)
  {
    BegunOwners(p, h);
    FailOwners(Begun(p), false, h);
  }

  lemma DroppedOwners(p: Parent, q: Read, h: nat)
    ensures Owners(Dropped(p, q), h) == Owners(p, h) + if q.handle == h then 1 else 0
  {
    assert ReadHandles(p.lost + [q]) == ReadHandles(p.lost) + [q.handle];
    TimesConcat(ReadHandles(p.lost), [q.handle], h);
    TimesOne(q.handle, h);
  }

  lemma PlacedOwners(p: Parent, q: Read, h: nat)
    requires p.active.Idle? && (p.detached.Idle? || q.op != References)
    ensures Owners(Placed(p, q), h) == Owners(p, h) + if q.handle == h then 1 else 0
  {
  }

  lemma SentOwners(p: Parent, m: ToWorker, h: nat)
    ensures Owners(p.(sent := p.sent + [m]), h) == Owners(p, h)
  {
  }

  lemma StartReadOwners(p: Parent, q: Read, h: nat)
    requires p.active.Idle? && !p.detached.Editing?
    ensures Owners(StartRead(p, q), h) == Owners(p, h) + if q.handle == h then 1 else 0
  {
    if !Encodes(p, q) || (q.op == References && p.detached.Reading?) {
      DroppedOwners(p, q, h);
      FailOwners(Dropped(p, q), false, h);
    } else {
      PlacedOwners(p, q, h);
      if q.fate.Sends? {
        SentOwners(Placed(p, q), ReadMessage(p.nextId, p.applied, q), h);
      } else {
        FailOwners(Placed(p, q), false, h);
      }
    }
  }

  lemma TakenOwners(p: Parent, h: nat)
    requires Choice(p).index >= 0
    ensures Owners(p, h) == Owners(Taken(p), h) + if p.queries[Choice(p).index].handle == h then 1 else 0
  {
    TimesWithout(p.queries, Choice(p).index, h);
  }

  lemma StaleOwners(p: Parent, q: Read, h: nat)
    ensures Owners(Stale(p, q), h) == Owners(p, h) + if q.handle == h then 1 else 0
  {
    SettleOwners(p, q.handle, Rejected(ContentModifiedError), h);
  }

  lemma PassedOwners(p: Parent, q: Read, next: Parent, h: nat)
    requires Choice(p).index >= 0 && q == p.queries[Choice(p).index] && next == Stale(Taken(p), q)
    ensures Owners(next, h) == Owners(p, h) && next.detached == p.detached
    ensures |next.queries| < |p.queries|
  {
    TakenOwners(p, h);
    StaleOwners(Taken(p), q, h);
  }

  lemma StartedOwners(p: Parent, q: Read, next: Parent, h: nat)
    requires Choice(p).index >= 0 && q == p.queries[Choice(p).index] && next == StartRead(Taken(p), q)
    requires p.active.Idle? && !p.detached.Editing?
    ensures Owners(next, h) == Owners(p, h) && !next.detached.Editing?
    ensures |next.queries| < |p.queries|
  {
    var taken := Taken(p);
    TakenOwners(p, h);
    StartedFromOwners(p, taken, q, next, h);
    StartReadShape(taken, q, next);
  }

  lemma StartedFromOwners(p: Parent, taken: Parent, q: Read, next: Parent, h: nat)
    requires Owners(p, h) == Owners(taken, h) + if q.handle == h then 1 else 0
    requires taken.active.Idle? && !taken.detached.Editing? && next == StartRead(taken, q)
    ensures Owners(next, h) == Owners(p, h)
  {
    StartReadOwners(taken, q, h);
  }

  lemma StartReadShape(p: Parent, q: Read, next: Parent)
    requires !p.detached.Editing? && next == StartRead(p, q)
    ensures !next.detached.Editing? && |next.queries| <= |p.queries|
  {
    if !Encodes(p, q) || (q.op == References && p.detached.Reading?) {
      FailShape(Dropped(p, q));
    } else if !q.fate.Sends? {
      FailShape(Placed(p, q));
    }
  }

  lemma FailShape(p: Parent)
    ensures Fail(p, false).detached == p.detached && |Fail(p, false).queries| <= |p.queries|
  {
  }

  lemma {:induction false} PumpOwners(p: Parent, h: nat)
    requires !p.detached.Editing?
    ensures Owners(Pump(p), h) == Owners(p, h)
    decreases |p.queries|
  {
    if p.active.Idle? && !p.disposed {
      if p.edits != [] {
        StartEditOwners(p, h);
      } else if Choice(p).index >= 0 {
        var q := p.queries[Choice(p).index];
        if q.generation != p.generation {
          var next := Stale(Taken(p), q);
          PassedOwners(p, q, next, h);
          PumpOwners(next, h);
        } else {
          var next := StartRead(Taken(p), q);
          StartedOwners(p, q, next, h);
          if q.op == References && next.failure.None? { PumpOwners(next, h); }
        }
      }
    }
  }

  // ----- The other handlers -----

  lemma ShutdownOwners(p: Parent, code: Code, h: nat)
    ensures Owners(Shutdown(p, code), h) == Owners(p, h)
  {
    if p.failure.None? {
      RetireOwners(p.(failure := Some(code)), code, h);
    }
  }

  lemma DeadlineOwners(p: Parent, disposal: bool, h: nat)
    requires !p.detached.Editing?
    ensures Owners(Deadline(p, disposal), h) == Owners(p, h)
  {
    if Due(p, disposal).Some? {
      var code := Due(p, disposal).value;
      SettleActiveOwners(p, code, h);
      SettleDetachedOwners(SettleActive(p, code), code, h);
    }
  }

  lemma QueuedOwners(p: Parent, m: Mutation, fate: Fate, h: nat)
    ensures Owners(EnqueueEdit(p, m, fate), h)
         == Owners(p, h) + if EnqueueEdit(p, m, fate).nextHandle > p.nextHandle && h == p.nextHandle then 1 else 0
  {
    var at := Absorber(Inputs(p.edits), m);
    if at < 0 {
      assert EditHandles(p.edits + [Edit(p.nextHandle, m, fate)]) == EditHandles(p.edits) + [p.nextHandle];
      TimesConcat(EditHandles(p.edits), [p.nextHandle], h);
      TimesOne(p.nextHandle, h);
    } else {
      assert EditHandles(Queued(p.edits, m, p.nextHandle, fate)) == EditHandles(p.edits);
    }
  }

  lemma InvalidateOwners(p: Parent, h: nat)
    ensures Owners(InvalidateReads(p), h) == Owners(p, h)
  {
    var cells := CancelSlot(CancelSlot(p.cells, p.active, ContentModified), p.detached, ContentModified);
    DrainReadsOwners(p.(cells := cells), ContentModified, ContentModifiedError, h);
  }

  /** Every record below `nextHandle` has exactly one owner, and no other record exists. */
  ghost predicate Exactly(p: Parent) {
    forall h: nat :: Owners(p, h) == if h < p.nextHandle then 1 else 0
  }

  lemma RestartOwners(p: Parent, h: nat)
    ensures Owners(RejectAndRestart(p), h) == Owners(p, h) + if h == p.nextHandle then 1 else 0
  {
    var q := Settle(p, p.nextHandle, Rejected(RestartRequired)).(nextHandle := p.nextHandle + 1);
    RefusedOwners(p, q, h);
    ShutdownOwners(q, RestartRequired, h);
  }

  lemma RefusedOwners(p: Parent, q: Parent, h: nat)
    requires q == Settle(p, p.nextHandle, Rejected(RestartRequired)).(nextHandle := p.nextHandle + 1)
    ensures Owners(q, h) == Owners(p, h) + if h == p.nextHandle then 1 else 0
  {
    SettleOwners(p, p.nextHandle, Rejected(RestartRequired), h);
  }

  lemma AcceptedOwners(p: Parent, m: Mutation, fate: Fate, h: nat)
    ensures Owners(Accepted(p, m, fate), h)
         == Owners(p, h) + if Accepted(p, m, fate).nextHandle > p.nextHandle && h == p.nextHandle then 1 else 0
  {
    var q := p.(generation := p.generation + 1, accepted := p.accepted + [m]);
    InvalidateOwners(q, h);
    QueuedOwners(InvalidateReads(q), m, fate, h);
  }

  lemma {:induction false} PumpKeepsHandles(p: Parent)
    ensures Pump(p).nextHandle == p.nextHandle
    decreases |p.queries|
  {
    if p.active.Idle? && !p.disposed && p.edits == [] && Choice(p).index >= 0 {
      var q := p.queries[Choice(p).index];
      if q.generation != p.generation {
        PumpKeepsHandles(Stale(Taken(p), q));
      } else if q.op == References && StartRead(Taken(p), q).failure.None? {
        PumpKeepsHandles(StartRead(Taken(p), q));
      }
    }
  }

  lemma MutateOwners(p: Parent, m: Mutation, fate: Fate, h: nat)
    requires !p.detached.Editing?
    ensures Owners(Mutate(p, m, fate), h)
         == Owners(p, h) + if Mutate(p, m, fate).nextHandle > p.nextHandle && h == p.nextHandle then 1 else 0
    ensures p.nextHandle <= Mutate(p, m, fate).nextHandle <= p.nextHandle + 1
  {
    var q := Accepted(p, m, fate);
    AcceptedOwners(p, m, fate, h);
    PumpOwners(q, h);
    PumpKeepsHandles(q);
    RestartOwners(p, h);
  }

  lemma JoinedOwners(p: Parent, q: Read, h: nat)
    ensures Owners(Joined(p, q), h) == Owners(p, h) + if h == q.handle then 1 else 0
  {
    assert ReadHandles(p.queries + [q]) == ReadHandles(p.queries) + [q.handle];
    TimesConcat(ReadHandles(p.queries), [q.handle], h);
    TimesOne(q.handle, h);
  }

  lemma OverflowedOwners(p: Parent, q: Read, h: nat)
    ensures Owners(Overflowed(p, q), h) == Owners(p, h) + if h == q.handle then 1 else 0
  {
    SettleOwners(p, q.handle, Rejected(QueueOverflow), h);
  }

  lemma RequestOwners(p: Parent, q: Read, h: nat)
    requires !p.detached.Editing? && q.handle == p.nextHandle && q.generation == p.generation
    ensures Owners(Request(p, q), h) == Owners(p, h) + if !Refuses(p, q) && h == p.nextHandle then 1 else 0
    ensures Request(p, q).nextHandle == p.nextHandle + if Refuses(p, q) then 0 else 1
  {
    if PendingReads.Admits(p.queries, q) {
      JoinedOwners(p, q, h);
      PumpOwners(Joined(p, q), h);
      PumpKeepsHandles(Joined(p, q));
    } else {
      OverflowedOwners(p, q, h);
    }
  }

  lemma CancelOwners(p: Parent, handle: nat, reason: Cell, h: nat)
    requires !reason.Active?
    ensures Owners(CancelRequest(p, handle, reason), h) == Owners(p, h)
  {
    var at := IndexOf(p.queries, handle);
    var q := p.(cells := Cancel(p.cells, handle, reason));
    if at >= 0 {
      TimesWithout(p.queries, at, h);
      SettleOwners(q, handle, Rejected(CancellationCode(CellOf(q.cells, handle))), h);
    }
  }

  lemma FreeActiveOwners(p: Parent, outcome: Outcome, applied: nat, h: nat)
    requires !p.active.Idle?
    ensures Owners(FreeActive(p, outcome, applied), h) == Owners(p, h)
  {
    SettleOwners(p, HandleOf(p.active), outcome, h);
  }

  lemma FreeDetachedOwners(p: Parent, outcome: Outcome, h: nat)
    requires !p.detached.Idle?
    ensures Owners(FreeDetached(p, outcome), h) == Owners(p, h)
  {
    SettleOwners(p, HandleOf(p.detached), outcome, h);
  }

  lemma ReceiveOwners(p: Parent, m: ToParent, h: nat)
    requires !p.detached.Editing?
    ensures Owners(Receive(p, m), h) == Owners(p, h)
  {
    match Received(p, m) {
      case Ignored =>
      case Unexpected => FailOwners(p, false, h);
      case AnswersEdit =>
        FreeActiveOwners(p, Acknowledged, p.active.revision, h);
        PumpOwners(FreeActive(p, Acknowledged, p.active.revision), h);
      case AnswersRead =>
        FreeActiveOwners(p, SlotOutcome(p, p.active, m), p.applied, h);
        PumpOwners(FreeActive(p, SlotOutcome(p, p.active, m), p.applied), h);
      case AnswersDetached =>
        FreeDetachedOwners(p, SlotOutcome(p, p.detached, m), h);
        PumpOwners(FreeDetached(p, SlotOutcome(p, p.detached, m)), h);
    }
  }
}
