/** The log of messages sent to the Worker: what it says, and how it stands to the
    mutations accepted and to the reads that are running. */
module MessageLog {
  import opened Options
  import opened Mutations
  import opened Lanes
  import opened Supervisor
  import opened ParentLaws
  import PendingReads

  /** What a Worker knows after the first `n` messages. */
  ghost function Knows(sent: seq<ToWorker>, n: nat): Knowledge
    requires n <= |sent|
  {
    if n == 0 then Nothing
    else if sent[n - 1].EditMessage? then Apply(sent[n - 1].input, Knows(sent, n - 1))
    else Knows(sent, n - 1)
  }

  ghost function EditCount(sent: seq<ToWorker>, n: nat): nat
    requires n <= |sent|
  {
    if n == 0 then 0 else EditCount(sent, n - 1) + if sent[n - 1].EditMessage? then 1 else 0
  }

  lemma {:induction false} PrefixSays(sent: seq<ToWorker>, more: seq<ToWorker>, n: nat)
    requires n <= |sent| && sent <= more
    ensures Knows(more, n) == Knows(sent, n) && EditCount(more, n) == EditCount(sent, n)
  {
    if n > 0 {
      PrefixSays(sent, more, n - 1);
    }
  }

  /** No edit was sent from position `from` on. */
  ghost predicate Quiet(sent: seq<ToWorker>, from: nat) {
    forall j :: from <= j < |sent| ==> sent[j].ReadMessage?
  }

  lemma {:induction false} QuietKnows(sent: seq<ToWorker>, from: nat, n: nat)
    requires from <= n <= |sent| && Quiet(sent, from)
    ensures Knows(sent, n) == Knows(sent, from) && EditCount(sent, n) == EditCount(sent, from)
  {
    if from < n {
      QuietKnows(sent, from, n - 1);
    }
  }

  // ----- The invariant -----

  ghost predicate Numbered(p: Parent) {
    && (forall j :: 0 <= j < |p.sent| && p.sent[j].EditMessage? ==> p.sent[j].revision == EditCount(p.sent, j) + 1)
    && (forall j :: 0 <= j < |p.sent| && p.sent[j].ReadMessage? ==> p.sent[j].id < p.nextId)
    && (forall j, k :: 0 <= j < k < |p.sent| && p.sent[j].ReadMessage? && p.sent[k].ReadMessage? ==>
          p.sent[j].id < p.sent[k].id)
  }

  /** While open: what was sent, followed by what is queued, means what was accepted. */
  ghost predicate Complete(p: Parent) {
    !p.disposed ==>
      && EditCount(p.sent, |p.sent|) == p.applied + (if p.active.Editing? then 1 else 0)
      && (p.active.Editing? ==> p.active.revision == p.applied + 1)
      && Fold(Inputs(p.edits), Knows(p.sent, |p.sent|)) == Fold(p.accepted, Nothing)
  }

  /** A slot's command stands in the log. */
  ghost predicate Filed(p: Parent, s: Slot) {
    match s
    case Idle => true
    case Editing(e, revision, index) => index < |p.sent| && p.sent[index] == EditMessage(revision, e.input)
    case Reading(q, id, revision, index) => index < |p.sent| && p.sent[index] == ReadMessage(id, revision, q)
  }

  ghost predicate Unrevoked(p: Parent, s: Slot) {
    s.Reading? && CellOf(p.cells, s.query.handle).Active?
  }

  /** No edit is queued, and none was sent since a live read was. */
  ghost predicate Undisturbed(p: Parent, s: Slot) {
    Unrevoked(p, s) ==> p.edits == [] && Quiet(p.sent, s.index)
  }

  ghost predicate Logged(p: Parent) {
    && Numbered(p) && Complete(p)
    && (!p.disposed ==> Filed(p, p.active) && Filed(p, p.detached))
    && Undisturbed(p, p.active) && Undisturbed(p, p.detached)
  }

  // ----- Failure paths -----

  lemma RetireLogged(p: Parent, code: Code)
    requires Core(p) && Numbered(p)
    ensures Logged(Retire(p, code))
  {
    SlotsRevoked(p.cells, p.active, p.detached, p.queries, SupervisorDisposing);
  }

  lemma StrandedLogged(p: Parent, code: Code)
    requires Logged(p) && p.disposed
    ensures Logged(SettleActive(p, code)) && Logged(SettleDetached(p, code))
  {
  }

  lemma FailLogged(p: Parent, terminal: bool)
    requires Core(p) && Numbered(p) && (p.failure.Some? ==> Logged(p) && p.disposed)
    ensures Logged(Fail(p, terminal))
  {
    if p.failure.Some? {
      StrandedLogged(p, p.failure.value);
    } else {
      RetireLogged(p.(failure := Some(WorkerUnavailable)), WorkerUnavailable);
      var q := Shutdown(p, WorkerUnavailable);
      StrandedLogged(q, WorkerUnavailable);
      StrandedLogged(SettleActive(q, WorkerUnavailable), WorkerUnavailable);
    }
  }

  // ----- Sending -----

  lemma Append(sent: seq<ToWorker>, m: ToWorker)
    ensures var more := sent + [m];
      && EditCount(more, |more|) == EditCount(sent, |sent|) + (if m.EditMessage? then 1 else 0)
      && Knows(more, |more|) == (if m.EditMessage? then Apply(m.input, Knows(sent, |sent|)) else Knows(sent, |sent|))
      && forall j :: 0 <= j <= |sent| ==> Knows(more, j) == Knows(sent, j) && EditCount(more, j) == EditCount(sent, j)
  {
    forall j | 0 <= j <= |sent|
      ensures Knows(sent + [m], j) == Knows(sent, j) && EditCount(sent + [m], j) == EditCount(sent, j)
    {
      PrefixSays(sent, sent + [m], j);
    }
  }

  lemma FoldFirst(edits: seq<Edit>, k: Knowledge)
    requires edits != []
    ensures Fold(Inputs(edits), k) == Fold(Inputs(edits[1..]), Apply(edits[0].input, k))
  {
    assert Inputs(edits) == [] + ([edits[0].input] + Inputs(edits[1..]));
    FoldAround([], edits[0].input, Inputs(edits[1..]), k);
  }

  lemma SentEditLogged(p: Parent)
    requires Logged(p) && p.edits != [] && p.active.Idle? && !p.disposed
    ensures Logged(Sent(p))
  {
    SentEditNumbered(p, Sent(p).sent);
    SentEditComplete(p, Sent(p));
  }

  lemma SentEditNumbered(p: Parent, more: seq<ToWorker>)
    requires Numbered(p) && p.edits != [] && EditCount(p.sent, |p.sent|) == p.applied
    requires more == p.sent + [EditMessage(p.applied + 1, p.edits[0].input)]
    ensures Numbered(p.(sent := more))
  {
    var n := |p.sent|;
    Append(p.sent, EditMessage(p.applied + 1, p.edits[0].input));
    forall j | 0 <= j < n + 1 && more[j].EditMessage? ensures more[j].revision == EditCount(more, j) + 1 {
      if j < n { assert more[j] == p.sent[j]; }
    }
    forall j | 0 <= j < n + 1 && more[j].ReadMessage? ensures j < n && more[j] == p.sent[j] {}
  }

  lemma SentEditComplete(p: Parent, q: Parent)
    requires Complete(p) && p.edits != [] && p.active.Idle? && !p.disposed && q == Sent(p)
    ensures Complete(q)
  {
    Append(p.sent, EditMessage(p.applied + 1, p.edits[0].input));
    FoldFirst(p.edits, Knows(p.sent, |p.sent|));
  }

  lemma StartEditLogged(p: Parent)
    requires Sound(p) && Logged(p) && p.edits != [] && p.active.Idle? && !p.disposed
    ensures Logged(StartEdit(p))
  {
    BegunEditLogged(p, StartEdit(p));
  }

  lemma BegunEditLogged(p: Parent, q: Parent)
    requires Sound(p) && Logged(p) && p.edits != [] && p.active.Idle? && !p.disposed
    requires q == Sent(p) || q == Fail(Begun(p), false)
    ensures Logged(q)
  {
    SentEditLogged(p);
    FailedEditLogged(p);
  }

  lemma FailedEditLogged(p: Parent)
    requires Sound(p) && Logged(p) && p.edits != [] && p.active.Idle? && !p.disposed
    ensures Logged(Fail(Begun(p), false))
  {
    BegunSound(p);
    FailLogged(Begun(p), false);
  }

  lemma SentReadLogged(p: Parent, q: Read)
    requires Logged(p) && p.edits == [] && p.active.Idle? && !p.disposed && !p.detached.Editing?
    requires p.detached.Reading? ==> q.op != References
    ensures Logged(Placed(p, q).(sent := p.sent + [ReadMessage(p.nextId, p.applied, q)]))
  {
    Append(p.sent, ReadMessage(p.nextId, p.applied, q));
  }

  lemma StartReadLogged(p: Parent, q: Read)
    requires Sound(p) && Logged(p) && p.edits == [] && p.active.Idle? && !p.disposed
    requires q.generation == p.generation && q.handle < p.nextHandle && q.bytes <= MAX_TEXT_BYTES
    requires p.detached.Reading? ==> q.op != References
    ensures Logged(StartRead(p, q))
  {
    if !Encodes(p, q) {
      DroppedCore(p, q);
      FailLogged(Dropped(p, q), false);
    } else if q.fate.Sends? {
      SentReadLogged(p, q);
    } else {
      FailLogged(Placed(p, q), false);
    }
  }

  lemma TakenLogged(p: Parent)
    requires Logged(p)
    ensures Logged(Taken(p))
  {
  }

  lemma ChosenLogged(p: Parent)
    requires Sound(p) && Logged(p) && p.edits == [] && p.active.Idle? && !p.disposed && Choice(p).index >= 0
    ensures Logged(Started(p))
  {
    ChosenStarts(p);
    TakenSound(p);
    TakenLogged(p);
    StartReadLogged(Taken(p), p.queries[Choice(p).index]);
  }

  lemma {:induction false} PumpLogged(p: Parent)
    requires Sound(p) && Logged(p)
    ensures Logged(Pump(p))
    decreases |p.queries|
  {
    if p.active.Idle? && !p.disposed {
      if p.edits != [] {
        StartEditLogged(p);
      } else if Choice(p).index >= 0 {
        ChosenStarts(p);
        ChosenLogged(p);
        PumpReads(p);
        PumpLogged(Started(p));
      }
    }
  }

  // ----- The handlers -----

  lemma QueuedInputs(edits: seq<Edit>, m: Mutation, handle: nat, fate: Fate)
    ensures Inputs(Queued(edits, m, handle, fate)) == Enqueue(Inputs(edits), m)
  {
  }

  /** The queue that took in `m` still completes the log to what was accepted. */
  lemma AcceptedComplete(edits: seq<Edit>, accepted: seq<Mutation>, m: Mutation, handle: nat, fate: Fate, k: Knowledge)
    requires Fold(Inputs(edits), k) == Fold(accepted, Nothing)
    ensures Fold(Inputs(Queued(edits, m, handle, fate)), k) == Fold(accepted + [m], Nothing)
  {
    QueuedInputs(edits, m, handle, fate);
    EnqueueMeansAppend(Inputs(edits), m, k);
    FoldSplits(accepted, [m], Nothing);
    FoldAround([], m, [], Fold(accepted, Nothing));
    assert [] + ([m] + []) == [m];
  }

  lemma AcceptedRevokes(p: Parent, m: Mutation, fate: Fate)
    requires Core(p)
    ensures var q := Accepted(p, m, fate); Revoked(q.cells, q.active) && Revoked(q.cells, q.detached)
  {
    SlotsRevoked(p.cells, p.active, p.detached, p.queries, ContentModified);
  }

  lemma AcceptedLogged(p: Parent, m: Mutation, fate: Fate)
    requires Logged(p) && Core(p) && !p.disposed
    ensures Logged(Accepted(p, m, fate))
  {
    AcceptedRevokes(p, m, fate);
    AcceptedComplete(p.edits, p.accepted, m, p.nextHandle, fate, Knows(p.sent, |p.sent|));
  }

  lemma RestartLogged(p: Parent)
    requires Sound(p) && Logged(p) && !p.disposed
    ensures Logged(RejectAndRestart(p))
  {
    var q := Settle(p, p.nextHandle, Rejected(RestartRequired)).(nextHandle := p.nextHandle + 1);
    RetireLogged(q.(failure := Some(RestartRequired)), RestartRequired);
  }

  lemma MutateLogged(p: Parent, m: Mutation, fate: Fate)
    requires Sound(p) && Logged(p)
    ensures Logged(Mutate(p, m, fate))
  {
    if !p.disposed {
      RestartLogged(p);
      if QueueFits(Queued(p.edits, m, p.nextHandle, fate)) {
        AcceptedLogged(p, m, fate);
        AcceptedSound(p, m, fate);
        PumpLogged(Accepted(p, m, fate));
      }
    }
  }

  lemma RequestLogged(p: Parent, q: Read)
    requires Sound(p) && Logged(p) && q.handle == p.nextHandle && q.generation == p.generation
    ensures Logged(Request(p, q))
  {
    if !p.disposed && PendingReads.Admits(p.queries, q) {
      JoinedLogged(p, q);
      JoinedSound(p, q);
      PumpLogged(Joined(p, q));
    }
  }

  lemma JoinedLogged(p: Parent, q: Read)
    requires Sound(p) && Logged(p) && q.handle == p.nextHandle
    ensures Logged(Joined(p, q))
  {
  }

  lemma CellLogged(p: Parent, handle: nat, reason: Cell)
    requires Logged(p) && !reason.Active?
    ensures Logged(p.(cells := Cancel(p.cells, handle, reason)))
  {
  }

  lemma CancelLogged(p: Parent, handle: nat, reason: Cell)
    requires Logged(p) && !reason.Active?
    ensures Logged(CancelRequest(p, handle, reason))
  {
    CellLogged(p, handle, reason);
  }

  lemma FreeActiveLogged(p: Parent, outcome: Outcome, applied: nat)
    requires Logged(p) && !p.active.Idle? && applied == if p.active.Editing? then p.active.revision else p.applied
    ensures Logged(FreeActive(p, outcome, applied))
  {
  }

  lemma FreeDetachedLogged(p: Parent, outcome: Outcome)
    requires Logged(p) && !p.detached.Idle?
    ensures Logged(FreeDetached(p, outcome))
  {
  }

  lemma ReceiveLogged(p: Parent, m: ToParent)
    requires Sound(p) && Logged(p)
    ensures Logged(Receive(p, m))
  {
    match Received(p, m) {
      case Ignored =>
      case Unexpected => FailLogged(p, false);
      case AnswersEdit => FreedActiveLogged(p, Acknowledged, p.active.revision);
      case AnswersRead => FreedActiveLogged(p, SlotOutcome(p, p.active, m), p.applied);
      case AnswersDetached =>
        FreeDetachedSound(p, SlotOutcome(p, p.detached, m));
        FreeDetachedLogged(p, SlotOutcome(p, p.detached, m));
        PumpLogged(FreeDetached(p, SlotOutcome(p, p.detached, m)));
    }
  }

  lemma FreedActiveLogged(p: Parent, outcome: Outcome, applied: nat)
    requires Sound(p) && Logged(p) && !p.active.Idle? && p.failure.None?
    requires applied == if p.active.Editing? then p.active.revision else p.applied
    ensures Logged(Pump(FreeActive(p, outcome, applied)))
  {
    FreeActiveSound(p, outcome, applied);
    FreeActiveLogged(p, outcome, applied);
    PumpLogged(FreeActive(p, outcome, applied));
  }

  lemma HandleLogged(p: Parent, e: Event)
    requires Sound(p) && Logged(p)
    ensures Logged(Handle(p, e))
  {
    match e {
      case Mutating(m, fate) => MutateLogged(p, m, fate);
      case Requesting(_, _, _, _, _, _) => RequestLogged(p, NewRead(p, e));
      case Cancelling(h, reason) => if !reason.Active? { CancelLogged(p, h, reason); }
      case Disposing => RetireLogged(p.(closing := true), WorkerUnavailable);
      case DeadlinePasses(disposal) => DeadlineLogged(p, disposal);
      case EndpointFails => FailLogged(p, true);
      case Receiving(m) => ReceiveLogged(p, m);
    }
  }

  lemma DeadlineLogged(p: Parent, disposal: bool)
    requires Sound(p) && Logged(p)
    ensures Logged(Deadline(p, disposal))
  {
    if Due(p, disposal).Some? {
      var code := Due(p, disposal).value;
      StrandedLogged(p, code);
      StrandedLogged(SettleActive(p, code), code);
    }
  }
}
