/** The invariant of the parent, kept by each handler, and the laws of its runs. */
module ParentLaws {
  // They hold against any Worker: revocation, bounded queues, settlement exactly once.

  import opened Options
  import opened Mutations
  import opened Lanes
  import opened Supervisor
  import opened Settlement
  import PendingReads
  import Envelope

  // ----- The invariant -----

  ghost predicate Core(p: Parent) {
    && !p.detached.Editing?
    && (p.detached.Reading? ==> p.detached.query.op == References)
    && (p.active.Reading? ==> p.active.query.op != References)
    && (!p.active.Idle? ==> HandleOf(p.active) < p.nextHandle)
    && (!p.detached.Idle? ==> HandleOf(p.detached) < p.nextHandle)
    && p.generation == |p.accepted|
    && Counted(p)
  }

  /** The id after the last one that encodes. */
  const PAST_IDS: nat := Envelope.MAX_SAFE + 1

  /** Applied revisions encode, and the only read ever lost is the one that found no id left. */
  ghost predicate Counted(p: Parent) {
    p.applied <= Envelope.MAX_SAFE && |p.lost| == if p.nextId <= PAST_IDS then 0 else 1
  }

  /** The revision of a running edit was encoded. */
  predicate Encoded(s: Slot) { s.Editing? ==> s.revision <= Envelope.MAX_SAFE }

  /** The reads were admitted in this generation and within the bound on input. */
  predicate Admitted(queries: seq<Read>, generation: nat, nextHandle: nat) {
    forall i :: 0 <= i < |queries| ==>
      queries[i].generation == generation && queries[i].handle < nextHandle && queries[i].bytes <= MAX_TEXT_BYTES
  }

  lemma AdmittedWithout(queries: seq<Read>, at: int, generation: nat, nextHandle: nat)
    requires Admitted(queries, generation, nextHandle)
    ensures Admitted(Without(queries, at), generation, nextHandle)
  {
    if 0 <= at < |queries| {
      var rest := Without(queries, at);
      forall i | 0 <= i < |rest|
        ensures rest[i].generation == generation && rest[i].handle < nextHandle && rest[i].bytes <= MAX_TEXT_BYTES
      {
        assert rest[i] == if i < at then queries[i] else queries[i + 1];
      }
    }
  }

  /** Bounded queues; every queued read was admitted after the last accepted mutation. */
  ghost predicate Queues(p: Parent) {
    && (p.nextId > PAST_IDS ==> p.disposed) && (p.disposed <==> p.failure.Some? || p.closing)
    && (p.failure.None? ==> Encoded(p.active))
    && (p.disposed ==> p.edits == [] && p.queries == [])
    && Admitted(p.queries, p.generation, p.nextHandle)
    && (forall i :: 0 <= i < |p.edits| ==> p.edits[i].handle < p.nextHandle)
    && p.queuedText == QueuedText(p.edits, |p.edits|)
    && QueueFits(p.edits)
  }

  /** A running read whose cell is still active is current: no mutation was accepted since
      its admission, and the supervisor is open. */
  ghost predicate Current(p: Parent, s: Slot) {
    s.Reading? && CellOf(p.cells, s.query.handle).Active? ==> s.query.generation == p.generation && !p.disposed
  }

  ghost predicate Sound(p: Parent) {
    Core(p) && Queues(p) && Current(p, p.active) && Current(p, p.detached)
  }

  // ----- Cells only ever leave the active state -----

  ghost predicate Revoked(cells: map<nat, Cell>, s: Slot) {
    s.Reading? ==> !CellOf(cells, s.query.handle).Active?
  }

  lemma {:induction false} CancelAllKeeps(cells: map<nat, Cell>, queries: seq<Read>, n: nat, reason: Cell, h: nat)
    requires n <= |queries| && !CellOf(cells, h).Active?
    ensures CellOf(CancelAll(cells, queries, n, reason), h) == CellOf(cells, h)
  {
    if n > 0 {
      CancelAllKeeps(cells, queries, n - 1, reason, h);
    }
  }

  lemma SlotsRevoked(cells: map<nat, Cell>, a: Slot, d: Slot, queries: seq<Read>, reason: Cell)
    requires !reason.Active?
    ensures var c := CancelAll(CancelSlot(CancelSlot(cells, a, reason), d, reason), queries, |queries|, reason);
      Revoked(c, a) && Revoked(c, d)
  {
    var c := CancelSlot(CancelSlot(cells, a, reason), d, reason);
    assert Revoked(c, a) && Revoked(c, d);
    if a.Reading? { CancelAllKeeps(c, queries, |queries|, reason, a.query.handle); }
    if d.Reading? { CancelAllKeeps(c, queries, |queries|, reason, d.query.handle); }
  }

  // ----- Failure paths -----

  lemma RetireSound(p: Parent, code: Code)
    requires Core(p) && (p.failure.None? ==> Encoded(p.active)) && (p.failure.Some? || p.closing)
    ensures Sound(Retire(p, code)) && Retire(p, code).disposed
    ensures Retire(p, code).nextHandle == p.nextHandle
  {
    SlotsRevoked(p.cells, p.active, p.detached, p.queries, SupervisorDisposing);
  }

  lemma SettleActiveSound(p: Parent, code: Code)
    requires Sound(p)
    ensures Sound(SettleActive(p, code)) && SettleActive(p, code).active.Idle?
  {
  }

  lemma SettleDetachedSound(p: Parent, code: Code)
    requires Sound(p)
    ensures Sound(SettleDetached(p, code)) && SettleDetached(p, code).detached.Idle?
  {
  }

  lemma FailSound(p: Parent, terminal: bool)
    requires Core(p) && (p.failure.Some? ==> Sound(p))
    ensures Sound(Fail(p, terminal)) && Fail(p, terminal).disposed
  {
    if p.failure.Some? {
      SettleActiveSound(p, p.failure.value);
    } else {
      RetireSound(p.(failure := Some(WorkerUnavailable)), WorkerUnavailable);
      var q := Shutdown(p, WorkerUnavailable);
      SettleActiveSound(q, WorkerUnavailable);
      SettleDetachedSound(SettleActive(q, WorkerUnavailable), WorkerUnavailable);
    }
  }

  lemma DeadlineSound(p: Parent, disposal: bool)
    requires Sound(p)
    ensures Sound(Deadline(p, disposal))
  {
    if Due(p, disposal).Some? {
      var code := Due(p, disposal).value;
      SettleActiveSound(p, code);
      SettleDetachedSound(SettleActive(p, code), code);
    }
  }

  // ----- Sending -----

  lemma {:induction false} TextWithoutFirst(edits: seq<Edit>, n: nat)
    requires 0 < n <= |edits|
    ensures QueuedText(edits, n) == TextBytes(edits[0].input) + QueuedText(edits[1..], n - 1)
    ensures QueuedDocuments(edits, n) >= QueuedDocuments(edits[1..], n - 1)
  {
    if n > 1 {
      TextWithoutFirst(edits, n - 1);
    }
  }

  lemma BegunSound(p: Parent)
    requires Sound(p) && p.edits != [] && p.active.Idle? && !p.disposed
    ensures Core(Begun(p)) && (p.applied < Envelope.MAX_SAFE ==> Sound(Begun(p)))
  {
    TextWithoutFirst(p.edits, |p.edits|);
  }

  lemma StartEditSound(p: Parent)
    requires Sound(p) && p.edits != [] && p.active.Idle? && !p.disposed
    ensures Sound(StartEdit(p))
  {
    BegunSound(p);
    if !EditLeaves(p.edits[0], p.applied + 1) {
      FailSound(Begun(p), false);
    }
  }

  lemma TakenSound(p: Parent)
    requires Sound(p)
    ensures Sound(Taken(p))
  {
    AdmittedWithout(p.queries, Choice(p).index, p.generation, p.nextHandle);
  }

  /** A read is dropped only when no id is left. */
  lemma DroppedCore(p: Parent, q: Read)
    requires Sound(p) && !p.disposed && q.bytes <= MAX_TEXT_BYTES && !Encodes(p, q)
    ensures p.nextId == PAST_IDS && Core(Dropped(p, q))
  {
    Envelope.AdmittedReadEncodes(q.bytes, p.nextId, p.applied);
  }

  lemma StartReadSound(p: Parent, q: Read)
    requires Sound(p) && p.active.Idle? && !p.disposed
    requires q.generation == p.generation && q.handle < p.nextHandle && q.bytes <= MAX_TEXT_BYTES
    requires p.detached.Reading? ==> q.op != References
    ensures Sound(StartRead(p, q))
  {
    if !Encodes(p, q) {
      DroppedCore(p, q);
      FailSound(Dropped(p, q), false);
    } else if !q.fate.Sends? {
      FailSound(Placed(p, q), false);
    }
  }

  function Started(p: Parent): Parent
    requires Choice(p).index >= 0
  {
    StartRead(Taken(p), p.queries[Choice(p).index])
  }

  lemma TakenShrinks(p: Parent, q: Read)
    requires Choice(p).index >= 0
    ensures |StartRead(Taken(p), q).queries| < |p.queries|
  {
  }

  /** The chosen read is current and finds its lane free. */
  lemma ChosenStarts(p: Parent)
    requires Sound(p) && p.active.Idle? && !p.disposed && Choice(p).index >= 0
    ensures var q := p.queries[Choice(p).index];
      && q.generation == p.generation && q.handle < p.nextHandle && q.bytes <= MAX_TEXT_BYTES
      && (p.detached.Reading? ==> q.op != References)
      && Sound(Started(p))
  {
    DetachedLaneIsNeverBusy(p.queries, p.bypassed);
    TakenSound(p);
    StartReadSound(Taken(p), p.queries[Choice(p).index]);
  }

  /** The pump of a sound parent with a chosen read: start it, and go on after `references`. */
  lemma PumpReads(p: Parent)
    requires Sound(p) && p.active.Idle? && !p.disposed && p.edits == [] && Choice(p).index >= 0
    ensures Pump(p) == if p.queries[Choice(p).index].op == References && Started(p).failure.None?
                       then Pump(Started(p)) else Started(p)
    ensures |Started(p).queries| < |p.queries|
  {
    ChosenStarts(p);
    TakenShrinks(p, p.queries[Choice(p).index]);
  }

  lemma {:induction false} PumpSound(p: Parent)
    requires Sound(p)
    ensures Sound(Pump(p))
    decreases |p.queries|
  {
    if p.active.Idle? && !p.disposed {
      if p.edits != [] {
        StartEditSound(p);
      } else if Choice(p).index >= 0 {
        ChosenStarts(p);
        PumpReads(p);
        PumpSound(Started(p));
      }
    }
  }

  /** While the parent is sound the pump never meets a stale read and never finds the
      detached lane busy: both branches of the source are unreachable. */
  lemma PumpBranchesUnreachable(p: Parent)
    requires Sound(p) && p.active.Idle? && !p.disposed && Choice(p).index >= 0
    ensures var q := p.queries[Choice(p).index];
      q.generation == p.generation && !(q.op == References && p.detached.Reading?)
  {
    ChosenStarts(p);
  }

  // ----- The other handlers -----

  lemma AcceptedSound(p: Parent, m: Mutation, fate: Fate)
    requires Sound(p) && !p.disposed && QueueFits(Queued(p.edits, m, p.nextHandle, fate))
    ensures Sound(Accepted(p, m, fate))
  {
    var q := p.(generation := p.generation + 1, accepted := p.accepted + [m]);
    SlotsRevoked(q.cells, q.active, q.detached, q.queries, ContentModified);
  }

  lemma RestartSound(p: Parent)
    requires Sound(p) && !p.disposed
    ensures Sound(RejectAndRestart(p))
  {
    var q := Settle(p, p.nextHandle, Rejected(RestartRequired)).(nextHandle := p.nextHandle + 1);
    RetireSound(q.(failure := Some(RestartRequired)), RestartRequired);
  }

  lemma MutateSound(p: Parent, m: Mutation, fate: Fate)
    requires Sound(p)
    ensures Sound(Mutate(p, m, fate))
  {
    if !p.disposed {
      RestartSound(p);
      if QueueFits(Queued(p.edits, m, p.nextHandle, fate)) {
        AcceptedSound(p, m, fate);
        PumpSound(Accepted(p, m, fate));
      }
    }
  }

  lemma RequestSound(p: Parent, q: Read)
    requires Sound(p) && q.handle == p.nextHandle && q.generation == p.generation
    ensures Sound(Request(p, q))
  {
    if !p.disposed && PendingReads.Admits(p.queries, q) {
      JoinedSound(p, q);
      PumpSound(Joined(p, q));
    }
  }

  lemma JoinedSound(p: Parent, q: Read)
    requires Sound(p) && !p.disposed && q.bytes <= MAX_TEXT_BYTES && q.handle == p.nextHandle
    requires q.generation == p.generation
    ensures Sound(Joined(p, q))
  {
  }

  lemma CellSound(p: Parent, handle: nat, reason: Cell)
    requires Sound(p) && !reason.Active?
    ensures Sound(p.(cells := Cancel(p.cells, handle, reason)))
  {
  }

  lemma WithdrawnSound(p: Parent, at: nat, outcome: Outcome)
    requires Sound(p) && at < |p.queries|
    ensures Sound(Settle(p, p.queries[at].handle, outcome).(queries := Without(p.queries, at)))
  {
    AdmittedWithout(p.queries, at, p.generation, p.nextHandle);
  }

  lemma CancelSound(p: Parent, handle: nat, reason: Cell)
    requires Sound(p) && !reason.Active?
    ensures Sound(CancelRequest(p, handle, reason))
  {
    var q := p.(cells := Cancel(p.cells, handle, reason));
    CellSound(p, handle, reason);
    var at := IndexOf(p.queries, handle);
    if at >= 0 {
      WithdrawnSound(q, at, Rejected(CancellationCode(CellOf(q.cells, handle))));
    }
  }

  lemma FreeActiveSound(p: Parent, outcome: Outcome, applied: nat)
    requires Sound(p) && !p.active.Idle? && applied <= Envelope.MAX_SAFE
    ensures Sound(FreeActive(p, outcome, applied))
  {
  }

  lemma FreeDetachedSound(p: Parent, outcome: Outcome)
    requires Sound(p) && !p.detached.Idle?
    ensures Sound(FreeDetached(p, outcome))
  {
  }

  lemma ReceiveSound(p: Parent, m: ToParent)
    requires Sound(p)
    ensures Sound(Receive(p, m))
  {
    match Received(p, m) {
      case Ignored =>
      case Unexpected => FailSound(p, false);
      case AnswersEdit =>
        FreeActiveSound(p, Acknowledged, p.active.revision);
        PumpSound(FreeActive(p, Acknowledged, p.active.revision));
      case AnswersRead =>
        FreeActiveSound(p, SlotOutcome(p, p.active, m), p.applied);
        PumpSound(FreeActive(p, SlotOutcome(p, p.active, m), p.applied));
      case AnswersDetached =>
        FreeDetachedSound(p, SlotOutcome(p, p.detached, m));
        PumpSound(FreeDetached(p, SlotOutcome(p, p.detached, m)));
    }
  }

  // ----- Runs of the parent -----

  datatype Event =
    | Mutating(m: Mutation, mutationFate: Fate)
    | Requesting(op: Method, uri: Uri, version: Option<nat>, disk: bool, bytes: nat, requestFate: Fate)
    | Cancelling(handle: nat, reason: Cell)
    | Disposing
    | DeadlinePasses(disposal: bool)
    | EndpointFails
    | Receiving(message: ToParent)

  ghost function NewRead(p: Parent, e: Event): Read
    requires e.Requesting?
  {
    Read(p.nextHandle, e.op, e.uri, e.version, e.disk, e.bytes, p.generation, e.requestFate)
  }

  /** One event handler, from any state, with any message. */
  ghost function Handle(p: Parent, e: Event): Parent {
    match e
    case Mutating(m, fate) => Mutate(p, m, fate)
    case Requesting(_, _, _, _, _, _) => Request(p, NewRead(p, e))
    case Cancelling(h, reason) => if reason.Active? then p else CancelRequest(p, h, reason)
    case Disposing => Dispose(p)
    case DeadlinePasses(disposal) => Deadline(p, disposal)
    case EndpointFails => Fail(p, true)
    case Receiving(m) => Receive(p, m)
  }

  ghost function Run(es: seq<Event>, n: nat): Parent
    requires n <= |es|
  {
    if n == 0 then Start else Handle(Run(es, n - 1), es[n - 1])
  }

  lemma HandleSound(p: Parent, e: Event)
    requires Sound(p)
    ensures Sound(Handle(p, e))
  {
    match e {
      case Mutating(m, fate) => MutateSound(p, m, fate);
      case Requesting(_, _, _, _, _, _) => RequestSound(p, NewRead(p, e));
      case Cancelling(h, reason) => if !reason.Active? { CancelSound(p, h, reason); }
      case Disposing => if !p.closing { RetireSound(p.(closing := true), WorkerUnavailable); }
      case DeadlinePasses(disposal) => DeadlineSound(p, disposal);
      case EndpointFails => FailSound(p, true);
      case Receiving(m) => ReceiveSound(p, m);
    }
  }

  lemma HandleOwners(p: Parent, e: Event, h: nat)
    requires Sound(p)
    ensures p.nextHandle <= Handle(p, e).nextHandle <= p.nextHandle + 1
    ensures Owners(Handle(p, e), h)
         == Owners(p, h) + if Handle(p, e).nextHandle > p.nextHandle && h == p.nextHandle then 1 else 0
  {
    match e {
      case Mutating(m, fate) => MutateOwners(p, m, fate, h);
      case Requesting(_, _, _, _, _, _) => RequestOwners(p, NewRead(p, e), h);
      case Cancelling(g, reason) => if !reason.Active? { CancelOwners(p, g, reason, h); }
      case Disposing => DisposeOwners(p, h);
      case DeadlinePasses(disposal) => DeadlineOwners(p, disposal, h); DeadlineKeepsHandles(p, disposal);
      case EndpointFails => FailOwners(p, true, h); FailKeepsHandles(p);
      case Receiving(m) => ReceiveOwners(p, m, h); ReceiveKeepsHandles(p, m);
    }
  }

  lemma DisposeOwners(p: Parent, h: nat)
    ensures Owners(Dispose(p), h) == Owners(p, h) && Dispose(p).nextHandle == p.nextHandle
  {
    RetireOwners(p.(closing := true), WorkerUnavailable, h);
  }

  lemma DeadlineKeepsHandles(p: Parent, disposal: bool)
    ensures Deadline(p, disposal).nextHandle == p.nextHandle
  {
  }

  lemma FailKeepsHandles(p: Parent)
    ensures Fail(p, true).nextHandle == p.nextHandle
  {
  }

  lemma ReceiveKeepsHandles(p: Parent, m: ToParent)
    ensures Receive(p, m).nextHandle == p.nextHandle
  {
    match Received(p, m) {
      case Ignored =>
      case Unexpected =>
      case AnswersEdit => PumpKeepsHandles(FreeActive(p, Acknowledged, p.active.revision));
      case AnswersRead => PumpKeepsHandles(FreeActive(p, SlotOutcome(p, p.active, m), p.applied));
      case AnswersDetached => PumpKeepsHandles(FreeDetached(p, SlotOutcome(p, p.detached, m)));
    }
  }

  /** In every run, at every step, the parent is sound and each record has exactly one
      owner: pending, active, detached, settled once, or lost. */
  lemma {:induction false} OneOwnerInEveryRun(es: seq<Event>, n: nat)
    requires n <= |es|
    ensures Sound(Run(es, n)) && Exactly(Run(es, n))
  {
    if n == 0 {
      EmptyStart();
    } else {
      OneOwnerInEveryRun(es, n - 1);
      var p := Run(es, n - 1);
      var q := Handle(p, es[n - 1]);
      HandleSound(p, es[n - 1]);
      forall h: nat
        ensures Owners(q, h) == if h < q.nextHandle then 1 else 0
      {
        HandleOwners(p, es[n - 1], h);
      }
    }
  }

  lemma EmptyStart()
    ensures Sound(Start) && Exactly(Start)
  {
  }

  lemma {:induction false} OccursTwice(s: seq<nat>, i: nat, j: nat)
    requires i < j < |s| && s[i] == s[j]
    ensures Times(s, s[i]) >= 2
  {
    assert s == s[..i] + ([s[i]] + s[i + 1..]);
    TimesThree(s[..i], s[i], s[i + 1..], s[i]);
    assert s[i + 1..][j - i - 1] == s[j];
    assert s[j] in s[..i] + s[i + 1..];
  }

  /** No completion is ever settled twice, whatever the order of responses, cancellations,
      invalidations, failures, disposal and deadlines. */
  lemma SettledAtMostOnce(es: seq<Event>, i: nat, j: nat)
    requires i < j < |Run(es, |es|).settled|
    ensures Run(es, |es|).settled[i].handle != Run(es, |es|).settled[j].handle
  {
    var p := Run(es, |es|);
    OneOwnerInEveryRun(es, |es|);
    var s := SettledHandles(p.settled);
    assert Owners(p, s[i]) <= 1;
    if s[i] == s[j] {
      OccursTwice(s, i, j);
      assert false;
    }
  }

  lemma DeadlineEmpties(p: Parent, disposal: bool, d: Parent)
    requires Sound(p) && Due(p, disposal).Some? && d == Deadline(p, disposal)
    ensures d.edits == [] && d.queries == [] && d.active.Idle? && d.detached.Idle?
  {
    var code := Due(p, disposal).value;
    SettleActiveSound(p, code);
    SettleDetachedSound(SettleActive(p, code), code);
  }

  lemma EmptyOwners(d: Parent, h: nat)
    requires d.edits == [] && d.queries == [] && d.active.Idle? && d.detached.Idle?
    ensures Owners(d, h) == Times(SettledHandles(d.settled), h) + Times(ReadHandles(d.lost), h)
  {
  }

  lemma DeadlineLeavesSettledOrLost(es: seq<Event>, disposal: bool, h: nat)
    requires Due(Run(es, |es|), disposal).Some? && h < Run(es, |es|).nextHandle
    ensures var d := Deadline(Run(es, |es|), disposal);
      Times(SettledHandles(d.settled), h) + Times(ReadHandles(d.lost), h) == 1
  {
    var p := Run(es, |es|);
    OneOwnerInEveryRun(es, |es|);
    DeadlineOwners(p, disposal, h);
    DeadlineEmpties(p, disposal, Deadline(p, disposal));
    EmptyOwners(Deadline(p, disposal), h);
  }

  lemma LostIsOwned(p: Parent) returns (h: nat)
    requires Exactly(p) && p.lost != []
    ensures h == p.lost[0].handle && h < p.nextHandle && Times(ReadHandles(p.lost), h) > 0
  {
    h := p.lost[0].handle;
    assert ReadHandles(p.lost)[0] == h && h in ReadHandles(p.lost);
    assert Owners(p, h) >= 1;
  }

  lemma NothingLost(lost: seq<Read>, h: nat)
    requires lost == []
    ensures Times(ReadHandles(lost), h) == 0
  {
  }

  lemma DeadlineKeepsLost(p: Parent, disposal: bool)
    ensures Deadline(p, disposal).lost == p.lost
  {
  }

  /** After disposal or failure a deadline is awaited, and whichever it is, it leaves every
      record settled exactly once, exactly when no read was started past the last id that
      encodes: when at most 2^53 - 1 reads were. */
  lemma DeadlineSettlesEveryRecord(es: seq<Event>)
    requires Run(es, |es|).disposed
    ensures exists disposal :: Due(Run(es, |es|), disposal).Some?
    ensures forall disposal :: Due(Run(es, |es|), disposal).Some? ==>
      ((forall h: nat :: h < Run(es, |es|).nextHandle ==>
          Times(SettledHandles(Deadline(Run(es, |es|), disposal).settled), h) == 1)
       <==> Run(es, |es|).nextId <= PAST_IDS)
  {
    var p := Run(es, |es|);
    OneOwnerInEveryRun(es, |es|);
    assert Due(p, false).Some? || Due(p, true).Some?;
    forall disposal | Due(p, disposal).Some?
      ensures (forall h: nat :: h < p.nextHandle ==> Times(SettledHandles(Deadline(p, disposal).settled), h) == 1)
        <==> p.nextId <= PAST_IDS
    {
      OneDeadlineSettles(es, disposal, p);
    }
  }

  lemma OneDeadlineSettles(es: seq<Event>, disposal: bool, p: Parent)
    requires p == Run(es, |es|) && Due(p, disposal).Some? && Sound(p) && Exactly(p)
    ensures (forall h: nat :: h < p.nextHandle ==> Times(SettledHandles(Deadline(p, disposal).settled), h) == 1)
      <==> p.nextId <= PAST_IDS
  {
    DeadlineKeepsLost(p, disposal);
    if p.nextId <= PAST_IDS {
      forall h: nat | h < p.nextHandle ensures Times(SettledHandles(Deadline(p, disposal).settled), h) == 1 {
        DeadlineLeavesSettledOrLost(es, disposal, h);
        NothingLost(Deadline(p, disposal).lost, h);
      }
    } else {
      var h := LostIsOwned(p);
      DeadlineLeavesSettledOrLost(es, disposal, h);
    }
  }
}
