/** The supervisor's edit queue and its pump. */
module EditQueue {
  // Over whole runs: the queue stays compact, work is never left lying while the command
  // slot is free, and a mutation is refused exactly for its size or for lack of room.

  import opened Options
  import opened Text
  import opened Mutations
  import opened Lanes
  import opened Supervisor
  import opened Settlement
  import opened ParentLaws
  import opened MessageLog
  import opened Growth
  import opened Coalescing
  import opened Delivery
  import Envelope
  import PendingReads
  import SupervisorObject

  // ----- Handlers only take edits from the front -----

  predicate Tail(a: seq<Edit>, b: seq<Edit>) { |b| <= |a| && b == a[|a| - |b|..] }

  lemma TailTwice(a: seq<Edit>, b: seq<Edit>, c: seq<Edit>)
    requires Tail(a, b) && Tail(b, c)
    ensures Tail(a, c)
  {
  }

  lemma EmptyIsTail(a: seq<Edit>)
    ensures Tail(a, []) && Tail(a, a)
  {
  }

  lemma FailEdits(p: Parent, terminal: bool)
    ensures Fail(p, terminal).edits == p.edits || Fail(p, terminal).edits == []
  {
  }

  lemma FailTail(p: Parent, terminal: bool)
    ensures Tail(p.edits, Fail(p, terminal).edits)
  {
    EmptyIsTail(p.edits);
    FailEdits(p, terminal);
  }

  lemma StartEditEdits(p: Parent)
    requires p.edits != []
    ensures StartEdit(p).edits == p.edits[1..] || StartEdit(p).edits == []
  {
    FailEdits(Begun(p), false);
  }

  lemma StartEditTail(p: Parent)
    requires p.edits != []
    ensures Tail(p.edits, StartEdit(p).edits)
  {
    EmptyIsTail(p.edits);
    StartEditEdits(p);
  }

  lemma StartReadEdits(p: Parent, q: Read)
    ensures StartRead(p, q).edits == p.edits || StartRead(p, q).edits == []
  {
    FailEdits(Dropped(p, q), false);
    FailEdits(Placed(p, q), false);
  }

  lemma StartReadTail(p: Parent, q: Read)
    ensures Tail(p.edits, StartRead(p, q).edits)
  {
    EmptyIsTail(p.edits);
    StartReadEdits(p, q);
  }

  lemma {:induction false} PumpTail(p: Parent)
    requires Sound(p)
    ensures Tail(p.edits, Pump(p).edits)
    decreases |p.queries|
  {
    EmptyIsTail(p.edits);
    if p.active.Idle? && !p.disposed {
      if p.edits != [] {
        StartEditTail(p);
      } else if Choice(p).index >= 0 {
        ChosenStarts(p);
        PumpReads(p);
        StartReadTail(Taken(p), p.queries[Choice(p).index]);
        PumpTail(Started(p));
        TailTwice(p.edits, Started(p).edits, Pump(Started(p)).edits);
      }
    }
  }

  lemma ReceiveTail(p: Parent, m: ToParent)
    requires Sound(p)
    ensures Tail(p.edits, Receive(p, m).edits)
  {
    EmptyIsTail(p.edits);
    match Received(p, m) {
      case Ignored =>
      case Unexpected => FailTail(p, false);
      case AnswersEdit =>
        FreeActiveSound(p, Acknowledged, p.active.revision);
        PumpTail(FreeActive(p, Acknowledged, p.active.revision));
      case AnswersRead =>
        FreeActiveSound(p, SlotOutcome(p, p.active, m), p.applied);
        PumpTail(FreeActive(p, SlotOutcome(p, p.active, m), p.applied));
      case AnswersDetached =>
        FreeDetachedSound(p, SlotOutcome(p, p.detached, m));
        PumpTail(FreeDetached(p, SlotOutcome(p, p.detached, m)));
    }
  }

  lemma RequestTail(p: Parent, r: Read)
    requires Sound(p) && r.handle == p.nextHandle && r.generation == p.generation
    ensures Tail(p.edits, Request(p, r).edits)
  {
    EmptyIsTail(p.edits);
    if !Refuses(p, r) && PendingReads.Admits(p.queries, r) {
      JoinedSound(p, r);
      PumpTail(Joined(p, r));
    }
  }

  lemma HandleTail(p: Parent, e: Event, q: Parent)
    requires Sound(p) && Leads(p, e, q) && !e.Mutating?
    ensures Tail(p.edits, q.edits)
  {
    EmptyIsTail(p.edits);
    match e {
      case Requesting(_, _, _, _, _, _) => RequestTail(p, NewRead(p, e));
      case EndpointFails => FailTail(p, true);
      case Receiving(m) => ReceiveTail(p, m);
      case _ =>
    }
  }

  // ----- The queue stays compact -----

  lemma {:induction false} TailKeepsCompact(pending: seq<Mutation>, d: nat)
    requires Compact(pending) && d <= |pending|
    ensures Compact(pending[d..])
  {
    if d > 0 {
      TailKeepsCompact(pending, d - 1);
      DequeueKeepsCompact(pending[d - 1..]);
      assert pending[d - 1..][1..] == pending[d..];
    }
  }

  lemma TailIsCompact(a: seq<Edit>, b: seq<Edit>)
    requires Compact(Inputs(a)) && Tail(a, b)
    ensures Compact(Inputs(b))
  {
    TailKeepsCompact(Inputs(a), |a| - |b|);
    assert Inputs(b) == Inputs(a)[|a| - |b|..];
  }

  lemma MutateKeepsCompact(p: Parent, m: Mutation, fate: Fate, q: Parent)
    requires Sound(p) && Compact(Inputs(p.edits)) && q == Mutate(p, m, fate)
    ensures Compact(Inputs(q.edits))
  {
    if !Invalid(p, m) {
      if !Transportable(m) || MergeRefused(p.edits, m) || !QueueFits(Queued(p.edits, m, p.nextHandle, fate)) {
        assert Inputs(q.edits) == [];
      } else {
        AcceptedSound(p, m, fate);
        QueuedInputs(p.edits, m, p.nextHandle, fate);
        EnqueueKeepsCompact(Inputs(p.edits), m);
        PumpTail(Accepted(p, m, fate));
        TailIsCompact(Accepted(p, m, fate).edits, q.edits);
      }
    }
  }

  lemma StepKeepsCompact(p: Parent, e: Event, q: Parent)
    requires Sound(p) && Leads(p, e, q) && Compact(Inputs(p.edits))
    ensures Compact(Inputs(q.edits))
  {
    if e.Mutating? {
      MutateKeepsCompact(p, e.m, e.mutationFate, q);
    } else {
      HandleTail(p, e, q);
      TailIsCompact(p.edits, q.edits);
    }
  }

  /** In every run the supervisor's queue is compact: two records of one document are
      separated by a close of it or by a workspace batch, and no two batches are neighbours. */
  lemma {:induction false} QueueIsCompactInEveryRun(es: seq<Event>, ps: seq<Parent>, n: nat)
    requires Trace(es, ps) && n < |ps|
    ensures Compact(Inputs(ps[n].edits))
  {
    if n > 0 {
      QueueIsCompactInEveryRun(es, ps, n - 1);
      StepsKeepCompact(es, ps, n - 1);
    }
  }

  lemma StepsKeepCompact(es: seq<Event>, ps: seq<Parent>, n: nat)
    requires Trace(es, ps) && n < |es| && Compact(Inputs(ps[n].edits))
    ensures Compact(Inputs(ps[n + 1].edits))
  {
    BooksInEveryRun(es, ps, n);
    assert LeadsAt(es, ps, n);
    StepKeepsCompact(ps[n], es[n], ps[n + 1]);
  }

  // ----- Nothing is left lying -----

  /** With the command slot free no edit is queued, and a queued read waits only behind a
      detached `references` read, being of the diagnostic or the global lane. */
  predicate AtWork(p: Parent) {
    !p.disposed && p.active.Idle? ==>
      && p.edits == []
      && (p.queries != [] ==> p.detached.Reading?)
      && forall i :: 0 <= i < |p.queries| ==>
           LaneOf(p.queries[i].op) == Diagnostic || LaneOf(p.queries[i].op) == Global
  }

  lemma {:induction false} NothingInteractive(pending: seq<Read>, from: nat)
    requires from <= |pending| && FirstInteractive(pending, from) == -1
    ensures forall i :: from <= i < |pending| ==> LaneOf(pending[i].op) == Diagnostic || LaneOf(pending[i].op) == Global
    decreases |pending| - from
  {
    if from < |pending| { NothingInteractive(pending, from + 1); }
  }

  lemma NoChoiceIsAtWork(p: Parent)
    requires p.active.Idle? && p.edits == [] && Choice(p).index < 0
    ensures AtWork(p) && AtWork(p.(bypassed := Choice(p).bypassed))
  {
    if p.queries != [] { NothingInteractive(p.queries, 0); }
  }

  lemma BrokenIsAtWork(p: Parent, terminal: bool)
    requires p.failure.Some? ==> p.disposed
    ensures AtWork(Fail(p, terminal))
  {
  }

  lemma StartEditIsAtWork(p: Parent)
    requires p.edits != [] && p.active.Idle? && p.failure.None?
    ensures AtWork(StartEdit(p))
  {
    BrokenIsAtWork(Begun(p), false);
  }

  /** A read that is not `references` takes the command slot, or the supervisor fails. */
  lemma StartedIsAtWork(p: Parent)
    requires Sound(p) && p.active.Idle? && !p.disposed && p.edits == [] && Choice(p).index >= 0
    ensures var q := p.queries[Choice(p).index];
      q.op != References || Started(p).failure.Some? ==> AtWork(Started(p))
  {
    ChosenStarts(p);
    var q := p.queries[Choice(p).index];
    if Started(p).failure.Some? { FailedIsDown(Started(p)); }
  }

  lemma FailedIsDown(p: Parent)
    requires Sound(p) && p.failure.Some?
    ensures AtWork(p)
  {
  }

  lemma {:induction false} PumpIsAtWork(p: Parent)
    requires Sound(p)
    ensures AtWork(Pump(p))
    decreases |p.queries|
  {
    if p.active.Idle? && !p.disposed {
      if p.edits != [] {
        StartEditIsAtWork(p);
      } else if Choice(p).index >= 0 {
        ChosenStarts(p);
        PumpReads(p);
        StartedIsAtWork(p);
        PumpIsAtWork(Started(p));
      } else {
        NoChoiceIsAtWork(p);
      }
    }
  }

  lemma ReceiveIsAtWork(p: Parent, m: ToParent)
    requires Sound(p) && AtWork(p)
    ensures AtWork(Receive(p, m))
  {
    match Received(p, m) {
      case Ignored =>
      case Unexpected => BrokenIsAtWork(p, false);
      case AnswersEdit =>
        FreeActiveSound(p, Acknowledged, p.active.revision);
        PumpIsAtWork(FreeActive(p, Acknowledged, p.active.revision));
      case AnswersRead =>
        FreeActiveSound(p, SlotOutcome(p, p.active, m), p.applied);
        PumpIsAtWork(FreeActive(p, SlotOutcome(p, p.active, m), p.applied));
      case AnswersDetached =>
        FreeDetachedSound(p, SlotOutcome(p, p.detached, m));
        PumpIsAtWork(FreeDetached(p, SlotOutcome(p, p.detached, m)));
    }
  }

  lemma RequestIsAtWork(p: Parent, r: Read)
    requires Sound(p) && AtWork(p) && r.handle == p.nextHandle && r.generation == p.generation
    ensures AtWork(Request(p, r))
  {
    if !Refuses(p, r) && PendingReads.Admits(p.queries, r) {
      JoinedSound(p, r);
      PumpIsAtWork(Joined(p, r));
    }
  }

  lemma MutateIsAtWork(p: Parent, m: Mutation, fate: Fate)
    requires Sound(p) && AtWork(p)
    ensures AtWork(Mutate(p, m, fate))
  {
    if !Invalid(p, m) {
      if !Transportable(m) || MergeRefused(p.edits, m) || !QueueFits(Queued(p.edits, m, p.nextHandle, fate)) {
        RestartSound(p);
      } else {
        AcceptedSound(p, m, fate);
        PumpIsAtWork(Accepted(p, m, fate));
      }
    }
  }

  lemma CancelIsAtWork(p: Parent, g: nat, reason: Cell, q: Parent)
    requires Sound(p) && AtWork(p) && !reason.Active? && q == CancelRequest(p, g, reason)
    ensures AtWork(q)
  {
    var at := IndexOf(p.queries, g);
    forall i | 0 <= i < |Without(p.queries, at)| ensures Without(p.queries, at)[i] in p.queries {
      WithoutIsPart(p.queries, at, i);
    }
    CancelledIsAtWork(p, Without(p.queries, at), q);
  }

  lemma CancelledIsAtWork(p: Parent, fewer: seq<Read>, q: Parent)
    requires AtWork(p) && (q.queries == p.queries || q.queries == fewer)
    requires q.active == p.active && q.detached == p.detached && q.edits == p.edits && q.disposed == p.disposed
    requires forall i :: 0 <= i < |fewer| ==> fewer[i] in p.queries
    ensures AtWork(q)
  {
    if q.queries != [] && q.queries == fewer { assert fewer[0] in p.queries; }
  }

  lemma StepIsAtWork(p: Parent, e: Event, q: Parent)
    requires Sound(p) && Leads(p, e, q) && AtWork(p)
    ensures AtWork(q)
  {
    match e {
      case Mutating(m, fate) => MutateIsAtWork(p, m, fate);
      case Requesting(_, _, _, _, _, _) => RequestIsAtWork(p, NewRead(p, e));
      case Cancelling(g, reason) => if !reason.Active? { CancelIsAtWork(p, g, reason, q); }
      case Disposing =>
      case DeadlinePasses(disposal) =>
      case EndpointFails => BrokenIsAtWork(p, true);
      case Receiving(m) => ReceiveIsAtWork(p, m);
    }
  }

  /** In every run an open supervisor with a free command slot has nothing it could send. */
  lemma {:induction false} NothingIsLeftLying(es: seq<Event>, ps: seq<Parent>, n: nat)
    requires Trace(es, ps) && n < |ps|
    ensures AtWork(ps[n])
  {
    if n > 0 {
      NothingIsLeftLying(es, ps, n - 1);
      BooksInEveryRun(es, ps, n - 1);
      assert LeadsAt(es, ps, n - 1);
      StepIsAtWork(ps[n - 1], es[n - 1], ps[n]);
    }
  }

  // ----- Which mutations are refused -----

  lemma BodyCosts(m: Mutation)
    requires m.Open? || m.Change?
    ensures |Envelope.Body(m)| == 4
    ensures Envelope.Sum(Envelope.Body(m), 4) ==
      (if m.Open? then 13 else 15) + 6 + Envelope.Quoted(m.uri) + 18 + Envelope.Digits(m.version)
      + 7 + WireBytes(m.text)
  {
    var body := Envelope.Body(m);
    assert Envelope.Cost(body[0]) == if m.Open? then 13 else 15;
    assert Envelope.Cost(body[1]) == 6 + Envelope.Quoted(m.uri);
    assert Envelope.Cost(body[2]) == 18 + Envelope.Digits(m.version);
    assert Envelope.Cost(body[3]) == 7 + WireBytes(m.text);
    assert Envelope.Sum(body, 1) == Envelope.Cost(body[0]);
    assert Envelope.Sum(body, 2) == Envelope.Sum(body, 1) + Envelope.Cost(body[1]);
    assert Envelope.Sum(body, 3) == Envelope.Sum(body, 2) + Envelope.Cost(body[2]);
  }

  /** An open is shorter on the wire than the change with its text. */
  lemma OpenEncodes(uri: Uri, version: nat, text: Utf16)
    requires Envelope.EditEncodes(Change(uri, version, text), 1)
    ensures Envelope.EditEncodes(Open(uri, version, text), 1)
  {
    var a, b := Change(uri, version, text), Open(uri, version, text);
    BodyCosts(a);
    BodyCosts(b);
    Envelope.SumConcat(Envelope.Prologue(1), Envelope.Body(a), 4);
    Envelope.SumConcat(Envelope.Prologue(1), Envelope.Body(b), 4);
  }

  function Total(edits: seq<Edit>): nat { QueuedText(edits, |edits|) }

  /** The queue can take the mutation: it is within the transport's bounds, and there is an
      absorbing record whose replacement fits in 4 MiB of text and, for a batch, can be sent;
      or none, one of 32 places is free and its text fits. */
  predicate Fitting(edits: seq<Edit>, m: Mutation) {
    && TextBytes(m) <= 4 * 1024 * 1024 && (m.Workspace? ==> |m.batch.changes| <= 1024)
    && if exists at :: 0 <= at < |edits| && Mergeable(Inputs(edits), at, m)
       then forall at :: 0 <= at < |edits| && Mergeable(Inputs(edits), at, m) ==> FitsInto(edits, at, m)
       else |edits| < 32 && Total(edits) + TextBytes(m) <= 4 * 1024 * 1024
  }

  predicate FitsInto(edits: seq<Edit>, at: nat, m: Mutation)
    requires at < |edits|
  {
    if m.Workspace? then Canonical(Merge(edits[at].input, m))
    else Total(edits) - TextBytes(edits[at].input) + TextBytes(m) <= 4 * 1024 * 1024
  }

  /** Only documents are counted, so the bound on their number follows from that on records. */
  lemma {:induction false} DocumentsAreRecords(edits: seq<Edit>, n: nat)
    requires n <= |edits|
    ensures QueuedDocuments(edits, n) <= n
  {
    if n > 0 { DocumentsAreRecords(edits, n - 1); }
  }

  lemma MergedDocumentEncodes(before: Mutation, m: Mutation)
    requires !m.Workspace? && !m.Close? && !before.Workspace? && !before.Close? && Envelope.EditEncodes(m, 1)
    ensures Canonical(Merge(before, m)) && TextBytes(Merge(before, m)) == TextBytes(m)
  {
    if before.Open? && m.Change? { OpenEncodes(m.uri, m.version, m.text); }
  }

  lemma FittingWithRecord(edits: seq<Edit>, m: Mutation, handle: nat, fate: Fate, at: nat)
    requires QueueFits(edits) && at < |edits| && Mergeable(Inputs(edits), at, m) && Envelope.EditEncodes(m, 1)
    ensures !MergeRefused(edits, m) && QueueFits(Queued(edits, m, handle, fate)) <==> FitsInto(edits, at, m)
  {
    SearchFinds(Inputs(edits), at, m);
    SupervisorObject.SumsOfQueued(edits, m, handle, fate, at);
    if !m.Workspace? { MergedDocumentEncodes(edits[at].input, m); }
  }

  lemma FittingWithoutRecord(edits: seq<Edit>, m: Mutation, handle: nat, fate: Fate)
    requires QueueFits(edits) && forall at :: 0 <= at < |edits| ==> !Mergeable(Inputs(edits), at, m)
    ensures !MergeRefused(edits, m) && QueueFits(Queued(edits, m, handle, fate)) <==>
      |edits| < 32 && Total(edits) + TextBytes(m) <= 4 * 1024 * 1024
  {
    SearchIsMergeable(Inputs(edits), m);
    SupervisorObject.SumsOfQueued(edits, m, handle, fate, Absorber(Inputs(edits), m));
    DocumentsAreRecords(edits, |edits|);
  }

  lemma FittingExactly(edits: seq<Edit>, m: Mutation, handle: nat, fate: Fate)
    requires QueueFits(edits) && (Transportable(m) ==> Envelope.EditEncodes(m, 1))
    ensures Transportable(m) && !MergeRefused(edits, m) && QueueFits(Queued(edits, m, handle, fate)) <==>
      Fitting(edits, m)
  {
    if Transportable(m) {
      if at :| 0 <= at < |edits| && Mergeable(Inputs(edits), at, m) {
        FittingWithRecord(edits, m, handle, fate, at);
        forall b | 0 <= b < |edits| && Mergeable(Inputs(edits), b, m) ensures b == at {
          MergeableIsUnique(Inputs(edits), at, b, m);
        }
      } else {
        FittingWithoutRecord(edits, m, handle, fate);
      }
    }
  }

  /** A valid mutation is accepted exactly when the queue can take it; otherwise it is
      rejected as needing a restart and the supervisor shuts down. */
  lemma MutationsAreRefusedExactly(p: Parent, m: Mutation, fate: Fate, q: Parent)
    requires Sound(p) && !Invalid(p, m) && q == Mutate(p, m, fate)
    ensures if Fitting(p.edits, m) then q.accepted == p.accepted + [m]
            else q.accepted == p.accepted && q.failure == Some(RestartRequired)
                 && |q.settled| > |p.settled|
                 && q.settled[|p.settled|] == Settled(p.nextHandle, Rejected(RestartRequired))
  {
    FittingExactly(p.edits, m, p.nextHandle, fate);
    if Fitting(p.edits, m) {
      AcceptedGrowsBy(p, m, fate, Accepted(p, m, fate), q);
    } else {
      RefusedSettles(p, q);
    }
  }

  lemma AcceptedGrowsBy(p: Parent, m: Mutation, fate: Fate, accepted: Parent, q: Parent)
    requires accepted == Accepted(p, m, fate) && q == Pump(accepted)
    ensures q.accepted == p.accepted + [m]
  {
    PumpGrows(accepted);
  }

  lemma RefusedSettles(p: Parent, q: Parent)
    requires Sound(p) && !p.disposed && q == RejectAndRestart(p)
    ensures q.accepted == p.accepted && q.failure == Some(RestartRequired) && |q.settled| > |p.settled|
    ensures q.settled[|p.settled|] == Settled(p.nextHandle, Rejected(RestartRequired))
  {
  }

  // ----- Admission of reads -----

  /** At most 64 documents and 4 MiB of input are queued with `q`. */
  ghost predicate Roomy(queries: seq<Read>, q: Read) {
    && |(set r | r in queries :: r.uri) + {q.uri}| <= 64
    && PendingReads.Total(queries, |queries|) + q.bytes <= 4 * 1024 * 1024
  }

  lemma RoomyIsAdmitted(queries: seq<Read>, q: Read)
    ensures Roomy(queries, q) <==> PendingReads.Admits(queries, q)
  {
    assert PendingReads.Sources(queries + [q]) == (set r | r in queries :: r.uri) + {q.uri};
  }

  /** Nothing settled since `from` overflowed. */
  predicate NoOverflow(p: Parent, from: nat) {
    forall i :: from <= i < |p.settled| ==> p.settled[i].outcome != Rejected(QueueOverflow)
  }

  lemma FailDoesNotOverflow(p: Parent, terminal: bool, from: nat)
    requires p.failure.None? && NoOverflow(p, from)
    ensures NoOverflow(Fail(p, terminal), from)
  {
  }

  lemma StartDoesNotOverflow(p: Parent, from: nat)
    requires p.failure.None? && NoOverflow(p, from)
    ensures p.edits != [] ==> NoOverflow(StartEdit(p), from)
    ensures forall q: Read :: NoOverflow(StartRead(p, q), from)
  {
    if p.edits != [] { FailDoesNotOverflow(Begun(p), false, from); }
    forall q: Read ensures NoOverflow(StartRead(p, q), from) {
      FailDoesNotOverflow(Dropped(p, q), false, from);
      FailDoesNotOverflow(Placed(p, q), false, from);
    }
  }

  lemma {:induction false} PumpDoesNotOverflow(p: Parent, from: nat)
    requires p.failure.None? && NoOverflow(p, from)
    ensures NoOverflow(Pump(p), from)
    decreases |p.queries|
  {
    if p.active.Idle? && !p.disposed {
      if p.edits != [] {
        StartDoesNotOverflow(p, from);
      } else if Choice(p).index >= 0 {
        var q := p.queries[Choice(p).index];
        if q.generation != p.generation {
          PumpDoesNotOverflow(Stale(Taken(p), q), from);
        } else {
          StartDoesNotOverflow(Taken(p), from);
          if q.op == References && StartRead(Taken(p), q).failure.None? {
            PumpDoesNotOverflow(StartRead(Taken(p), q), from);
          }
        }
      }
    }
  }

  /** A read overflows exactly when the queue has no room for it, and then nothing else
      changes; it throws, and leaves no trace, exactly when the supervisor is closed or its
      input does not encode. */
  lemma RequestsAreRefusedExactly(p: Parent, q: Read, t: Parent)
    requires Sound(p) && q.handle == p.nextHandle && q.generation == p.generation && t == Request(p, q)
    ensures if p.disposed || !Envelope.ReadEncodes(q.bytes, p.nextId, 0) then t == p
            else if Roomy(p.queries, q) then t.nextHandle == p.nextHandle + 1 && NoOverflow(t, |p.settled|)
            else
              && t.settled == p.settled + [Settled(q.handle, Rejected(QueueOverflow))]
              && t.nextHandle == p.nextHandle + 1 && t.queries == p.queries && t.edits == p.edits
              && t.active == p.active && t.detached == p.detached && t.sent == p.sent && t.failure == p.failure
  {
    RoomyIsAdmitted(p.queries, q);
    if !Refuses(p, q) && Roomy(p.queries, q) {
      PumpDoesNotOverflow(Joined(p, q), |p.settled|);
      PumpKeepsHandles(Joined(p, q));
    }
  }
}
