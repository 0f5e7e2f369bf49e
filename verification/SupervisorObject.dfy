/** The root supervisor as an object whose handlers update its fields, proved step by step
    against the functions of `Supervisor`: every law of a run holds of this object. */
module SupervisorObject {
  import opened Options
  import opened Mutations
  import opened Lanes
  import opened Supervisor
  import Reads = PendingReads
  import Envelope

  lemma RejectedMore(edits: seq<Edit>, n: nat, code: Code)
    requires n < |edits|
    ensures RejectEdits(edits, code)[..n + 1]
      == RejectEdits(edits, code)[..n] + [Settled(edits[n].handle, Rejected(code))]
  {
  }

  lemma RejectedReadsMore(queries: seq<Read>, n: nat, code: Code)
    requires n < |queries|
    ensures RejectReads(queries, code)[..n + 1]
      == RejectReads(queries, code)[..n] + [Settled(queries[n].handle, Rejected(code))]
  {
  }

  predicate Below(items: seq<Read>, n: nat) {
    forall i :: 0 <= i < |items| ==> items[i].handle < n
  }

  lemma BelowAppended(items: seq<Read>, q: Read, n: nat)
    requires Below(items, n) && q.handle == n
    ensures Below(items + [q], n + 1) && Below(items, n + 1)
  {
  }

  lemma BelowMore(items: seq<Read>, n: nat, m: nat)
    requires Below(items, n) && n <= m
    ensures Below(items, m)
  {
  }

  lemma BelowWithout(items: seq<Read>, at: int, n: nat)
    requires Below(items, n)
    ensures Below(Without(items, at), n)
  {
    if 0 <= at < |items| {
      var rest := Without(items, at);
      forall i | 0 <= i < |rest| ensures rest[i].handle < n {
        assert rest[i] == if i < at then items[i] else items[i + 1];
      }
    }
  }

  lemma StartReadDrainsOrKeeps(p: Parent, q: Read)
    ensures StartRead(p, q).queries == p.queries || StartRead(p, q).queries == []
  {
  }

  function Withdrawn(p: Parent, handle: nat): Parent {
    var at := IndexOf(p.queries, handle);
    if at < 0 then p
    else Settle(p, handle, Rejected(CancellationCode(CellOf(p.cells, handle)))).(queries := Without(p.queries, at))
  }

  // ----- What one queued mutation changes in the sums -----

  lemma {:induction false} AbsorberIsAlike(pending: seq<Mutation>, m: Mutation)
    ensures Absorber(pending, m) >= 0 ==> pending[Absorber(pending, m)].Workspace? == m.Workspace?
  {
    if pending != [] { AbsorberIsAlike(pending[..|pending| - 1], m); }
  }

  lemma {:induction false} SumsPrefix(a: seq<Edit>, b: seq<Edit>, n: nat)
    requires n <= |a| && n <= |b| && forall i :: 0 <= i < n ==> a[i] == b[i]
    ensures QueuedText(a, n) == QueuedText(b, n) && QueuedDocuments(a, n) == QueuedDocuments(b, n)
  {
    if n > 0 { SumsPrefix(a, b, n - 1); }
  }

  lemma {:induction false} SumsReplaced(edits: seq<Edit>, at: nat, e: Edit, n: nat)
    requires at < n <= |edits| && e.input.Workspace? == edits[at].input.Workspace?
    ensures QueuedText(edits[at := e], n) == QueuedText(edits, n) - TextBytes(edits[at].input) + TextBytes(e.input)
    ensures QueuedDocuments(edits[at := e], n) == QueuedDocuments(edits, n)
  {
    if n - 1 == at {
      SumsPrefix(edits, edits[at := e], at);
    } else {
      SumsReplaced(edits, at, e, n - 1);
    }
  }

  /** The sums the handler computes are those of the queue it would get. */
  lemma SumsOfQueued(edits: seq<Edit>, m: Mutation, handle: nat, fate: Fate, at: int)
    requires at == Absorber(Inputs(edits), m)
    ensures var after := Queued(edits, m, handle, fate);
      if at < 0 then
        && |after| == |edits| + 1
        && QueuedText(after, |after|) == QueuedText(edits, |edits|) + TextBytes(m)
        && QueuedDocuments(after, |after|) == QueuedDocuments(edits, |edits|) + if m.Workspace? then 0 else 1
      else
        && |after| == |edits| && QueuedDocuments(after, |after|) == QueuedDocuments(edits, |edits|)
        && QueuedText(after, |after|) ==
             QueuedText(edits, |edits|) - TextBytes(edits[at].input) + TextBytes(Merge(edits[at].input, m))
  {
    if at < 0 {
      SumsPrefix(edits, edits + [Edit(handle, m, fate)], |edits|);
    } else {
      AbsorberIsAlike(Inputs(edits), m);
      SumsReplaced(edits, at, Edit(edits[at].handle, Merge(edits[at].input, m), fate), |edits|);
    }
  }

  datatype Weighed = Refused | Room(at: int, next: Mutation, text: int)

  class RootSemanticWorkerSupervisor {
    const requests: Reads.PendingReads
    var edits: seq<Edit>
    var bypassed: Option<nat>
    var active: Slot
    var detached: Slot
    var applied: nat
    var generation: nat
    var queuedText: int
    var nextId: nat
    var disposed: bool
    var closing: bool
    var failure: Option<Code>
    var cells: map<nat, Cell>
    var nextHandle: nat
    var sent: seq<ToWorker>
    var settled: seq<Settlement>
    ghost var lost: seq<Read>
    ghost var accepted: seq<Mutation>

    ghost function View(): Parent
      reads this, requests
    {
      Parent(edits, requests.items, bypassed, active, detached, applied, generation, queuedText, nextId, disposed,
             closing, failure, cells, nextHandle, sent, settled, lost, accepted)
    }

    /** The books of the queue agree with it, and new records get new handles. */
    ghost predicate Valid()
      reads this`nextHandle, requests
    {
      requests.Valid() && Below(requests.items, nextHandle)
    }

    constructor ()
      ensures Valid() && fresh(requests) && View() == Start
    {
      requests := new Reads.PendingReads();
      edits, bypassed, active, detached := [], None, Idle, Idle;
      applied, generation, queuedText, nextId, disposed, closing, failure := 0, 0, 0, 1, false, false, None;
      cells, nextHandle, sent, settled, lost, accepted := map[], 0, [], [], [], [];
    }

    method Complete(handle: nat, outcome: Outcome)
      modifies this`settled
      ensures View() == Settle(old(View()), handle, outcome)
    {
      settled := settled + [Settled(handle, outcome)];
    }

    // ----- Cells -----

    method CancelCell(handle: nat, reason: Cell)
      modifies this`cells
      ensures cells == Cancel(old(cells), handle, reason)
    {
      if CellOf(cells, handle).Active? { cells := cells[handle := reason]; }
    }

    method CancelRunning(reason: Cell)
      modifies this`cells
      ensures cells == CancelSlot(CancelSlot(old(cells), active, reason), detached, reason)
    {
      if active.Reading? { CancelCell(active.query.handle, reason); }
      if detached.Reading? { CancelCell(detached.query.handle, reason); }
    }

    // ----- Draining -----

    method RejectQueuedReads(reason: Cell, code: Code)
      requires Valid()
      modifies this`cells, this`settled, requests
      ensures Valid() && View() == DrainReads(old(View()), reason, code)
    {
      var drained := requests.Drain();
      RejectDrained(drained, reason, code);
    }

    method RejectDrained(drained: seq<Read>, reason: Cell, code: Code)
      modifies this`cells, this`settled
      ensures cells == CancelAll(old(cells), drained, |drained|, reason)
      ensures settled == old(settled) + RejectReads(drained, code)
    {
      ghost var rejected := RejectReads(drained, code);
      for n := 0 to |drained|
        invariant cells == CancelAll(old(cells), drained, n, reason)
        invariant settled == old(settled) + rejected[..n]
      {
        RejectedReadsMore(drained, n, code);
        CancelCell(drained[n].handle, reason);
        settled := settled + [Settled(drained[n].handle, Rejected(code))];
      }
      assert rejected[..|drained|] == rejected;
    }

    method RejectQueuedEdits(code: Code)
      modifies this`edits, this`settled, this`queuedText
      ensures View() == DrainEdits(old(View()), code)
    {
      var drained := edits;
      edits := [];
      ghost var rejected := RejectEdits(drained, code);
      for n := 0 to |drained|
        invariant edits == [] && settled == old(settled) + rejected[..n]
      {
        RejectedMore(drained, n, code);
        settled := settled + [Settled(drained[n].handle, Rejected(code))];
      }
      assert rejected[..|drained|] == rejected;
      queuedText := 0;
    }

    method RetireAll(code: Code)
      requires Valid()
      modifies this, requests
      ensures Valid() && View() == Retire(old(View()), code)
    {
      disposed := true;
      CancelRunning(SupervisorDisposing);
      RejectQueuedEdits(code);
      RejectQueuedReads(SupervisorDisposing, code);
    }

    // ----- Failing -----

    method SettleActiveFailure(code: Code)
      modifies this`settled, this`active
      ensures View() == SettleActive(old(View()), code)
    {
      if active.Editing? {
        Complete(active.edit.handle, Rejected(code));
        active := Idle;
      } else if active.Reading? {
        Complete(active.query.handle, Rejected(StrandedCode(CellOf(cells, active.query.handle), code)));
        active := Idle;
      }
    }

    method SettleDetachedFailure(code: Code)
      modifies this`settled, this`detached
      ensures View() == SettleDetached(old(View()), code)
    {
      if detached.Reading? {
        Complete(detached.query.handle, Rejected(StrandedCode(CellOf(cells, detached.query.handle), code)));
        detached := Idle;
      }
    }

    method BeginShutdown(code: Code)
      requires Valid()
      modifies this, requests
      ensures Valid() && View() == Shutdown(old(View()), code)
    {
      if failure.None? {
        failure := Some(code);
        RetireAll(code);
      }
    }

    method DoFail(terminal: bool)
      requires Valid()
      modifies this, requests
      ensures Valid() && View() == Fail(old(View()), terminal)
    {
      if failure.Some? {
        if terminal { SettleActiveFailure(failure.value); }
        return;
      }
      BeginShutdown(WorkerUnavailable);
      if terminal {
        SettleActiveFailure(WorkerUnavailable);
        SettleDetachedFailure(WorkerUnavailable);
      }
    }

    method DoDispose()
      requires Valid()
      modifies this, requests
      ensures Valid() && View() == Dispose(old(View()))
    {
      if !closing {
        closing := true;
        RetireAll(WorkerUnavailable);
      }
    }

    method DeadlinePassed(disposal: bool)
      modifies this`settled, this`active, this`detached
      ensures View() == Deadline(old(View()), disposal)
    {
      var due := if !disposal then failure else if closing then Some(WorkerUnavailable) else None;
      if due.Some? {
        SettleActiveFailure(due.value);
        SettleDetachedFailure(due.value);
      }
    }

    // ----- Pumping -----

    method BeginEdit() returns (e: Edit)
      requires edits != []
      modifies this`edits, this`queuedText, this`active
      ensures View() == Begun(old(View())) && e == old(edits)[0]
    {
      e := edits[0];
      edits := edits[1..];
      queuedText := queuedText - TextBytes(e.input);
      active := Editing(e, applied + 1, |sent|);
    }

    method SendEdit()
      requires Valid() && edits != []
      modifies this, requests
      ensures Valid() && View() == StartEdit(old(View()))
    {
      var e := BeginEdit();
      if EditLeaves(e, applied + 1) {
        sent := sent + [EditMessage(applied + 1, e.input)];
      } else {
        DoFail(false);
      }
    }

    /** The encoding threw, or the lane is busy: no field holds the read any more. */
    method DropRead(q: Read)
      modifies this`nextId, this`lost
      ensures View() == Dropped(old(View()), q)
    {
      nextId := nextId + 1;
      lost := lost + [q];
    }

    method PlaceRead(q: Read)
      modifies this`nextId, this`active, this`detached
      ensures View() == Placed(old(View()), q)
    {
      var slot := Reading(q, nextId, applied, |sent|);
      nextId := nextId + 1;
      if q.op == References { detached := slot; } else { active := slot; }
    }

    method SendRead(q: Read)
      requires Valid()
      modifies this, requests
      ensures Valid() && View() == StartRead(old(View()), q)
    {
      if !Envelope.ReadEncodes(q.bytes, nextId, applied) || (q.op == References && detached.Reading?) {
        DropRead(q);
        DoFail(false);
      } else {
        Transmit(q);
      }
    }

    method Transmit(q: Read)
      requires Valid()
      modifies this, requests
      ensures Valid()
      ensures View() ==
        if q.fate.Sends? then Placed(old(View()), q).(sent := old(sent) + [ReadMessage(old(nextId), old(applied), q)])
        else Fail(Placed(old(View()), q), false)
    {
      var id := nextId;
      PlaceRead(q);
      if q.fate.Sends? {
        sent := sent + [ReadMessage(id, applied, q)];
      } else {
        DoFail(false);
      }
    }

    method TakeRead() returns (taken: Option<Read>)
      requires Valid()
      modifies this`bypassed, requests
      ensures Valid() && View() == Taken(old(View()))
      ensures taken ==
        if Choice(old(View())).index < 0 then None
        else Some(old(requests.items)[Choice(old(View())).index])
      ensures taken.Some? ==> |requests.items| < |old(requests.items)|
    {
      BelowWithout(requests.items, Select(requests.items, detached.Reading?, bypassed).index, nextHandle);
      taken, bypassed := requests.TakeSelected(detached.Reading?, bypassed);
    }

    method DoPump()
      requires Valid()
      modifies this, requests
      ensures Valid() && View() == Pump(old(View()))
      decreases |requests.items|, 0
    {
      if !active.Idle? || disposed { return; }
      if edits != [] {
        SendEdit();
        return;
      }
      ghost var p := View();
      var taken := TakeRead();
      if taken.Some? { PumpTaken(taken.value, p); }
    }

    /** The rest of a pump once a read was taken; `p` is the state before. */
    method PumpTaken(q: Read, ghost p: Parent)
      requires Valid() && p.active.Idle? && !p.disposed && p.edits == []
      requires Choice(p).index >= 0 && q == p.queries[Choice(p).index] && View() == Taken(p)
      modifies this, requests
      ensures Valid() && View() == Pump(p)
      decreases |requests.items|, 1
    {
      if q.generation != generation {
        DropStale(q);
        DoPump();
        return;
      }
      ghost var taken := View();
      SendRead(q);
      StartReadDrainsOrKeeps(taken, q);
      if q.op == References && failure.None? { DoPump(); }
    }

    method DropStale(q: Read)
      modifies this`cells, this`settled
      ensures View() == Stale(old(View()), q)
    {
      CancelCell(q.handle, ContentModified);
      Complete(q.handle, Rejected(ContentModifiedError));
    }

    // ----- Messages -----

    method ReleaseActive(outcome: Outcome, revision: nat)
      requires !active.Idle?
      modifies this`settled, this`active, this`applied
      ensures View() == FreeActive(old(View()), outcome, revision)
    {
      var handle := HandleOf(active);
      applied := revision;
      active := Idle;
      Complete(handle, outcome);
    }

    method ReleaseDetached(outcome: Outcome)
      requires !detached.Idle?
      modifies this`settled, this`detached
      ensures View() == FreeDetached(old(View()), outcome)
    {
      var handle := HandleOf(detached);
      detached := Idle;
      Complete(handle, outcome);
    }

    method FinishDetached(answer: Answer)
      requires Valid() && detached.Reading?
      modifies this, requests
      ensures Valid()
      ensures View() == Pump(FreeDetached(old(View()),
                                          Settling(CellOf(old(cells), old(detached.query.handle)), answer)))
    {
      ReleaseDetached(Settling(CellOf(cells, detached.query.handle), answer));
      DoPump();
    }

    method FinishRead(answer: Answer)
      requires Valid() && active.Reading?
      modifies this, requests
      ensures Valid()
      ensures View() ==
        Pump(FreeActive(old(View()), Settling(CellOf(old(cells), old(active.query.handle)), answer), old(applied)))
    {
      ReleaseActive(Settling(CellOf(cells, active.query.handle), answer), applied);
      DoPump();
    }

    method FinishEdit(revision: nat)
      requires Valid() && active.Editing?
      modifies this, requests
      ensures Valid() && View() == Pump(FreeActive(old(View()), Acknowledged, revision))
    {
      ReleaseActive(Acknowledged, revision);
      DoPump();
    }

    method ReceiveDetached(m: ToParent)
      requires Valid() && failure.None? && detached.Reading? && m.Response? && m.id == detached.id
      modifies this, requests
      ensures Valid() && View() == Receive(old(View()), m)
    {
      if Matches(detached, m) { FinishDetached(m.answer); } else { DoFail(false); }
    }

    method DoReceive(m: ToParent)
      requires Valid()
      modifies this, requests
      ensures Valid() && View() == Receive(old(View()), m)
    {
      if failure.Some? { return; }
      if detached.Reading? && m.Response? && m.id == detached.id {
        ReceiveDetached(m);
      } else if active.Editing? && m.Ack? && m.revision == active.revision {
        FinishEdit(m.revision);
      } else if active.Reading? && m.Response? && m.id == active.id && Matches(active, m) {
        FinishRead(m.answer);
      } else {
        DoFail(false);
      }
    }

    // ----- Requests -----

    /** A new record: admitted to the queue, or rejected at once. */
    method Enroll(q: Read) returns (ok: bool)
      requires Valid() && q.handle == nextHandle
      modifies this`nextHandle, this`cells, this`settled, requests
      ensures Valid() && ok == Reads.Admits(old(requests.items), q)
      ensures ok ==> View() == Joined(old(View()), q)
      ensures !ok ==> View() == Overflowed(old(View()), q)
    {
      BelowAppended(requests.items, q, nextHandle);
      ok := requests.Add(q);
      Register(q);
      if !ok { Complete(q.handle, Rejected(QueueOverflow)); }
    }

    /** A new handle with its cancellation cell. */
    method Register(q: Read)
      requires q.handle == nextHandle
      modifies this`nextHandle, this`cells
      ensures nextHandle == old(nextHandle) + 1 && cells == old(cells)[q.handle := Active]
    {
      nextHandle := nextHandle + 1;
      cells := cells[q.handle := Active];
    }

    method DoRequest(q: Read)
      requires Valid() && q.handle == nextHandle && q.generation == generation
      modifies this, requests
      ensures Valid() && View() == Request(old(View()), q)
    {
      if disposed || !Envelope.ReadEncodes(q.bytes, nextId, 0) { return; }
      var ok := Enroll(q);
      if ok { DoPump(); }
    }

    method DoCancelRequest(handle: nat, reason: Cell)
      requires Valid() && !reason.Active?
      modifies this, requests
      ensures Valid() && View() == CancelRequest(old(View()), handle, reason)
    {
      if handle !in cells { return; }
      CancelCell(handle, reason);
      if (active.Reading? && active.query.handle == handle) || (detached.Reading? && detached.query.handle == handle) {
        return;
      }
      WithdrawRequest(handle);
    }

    /** A queued read leaves its queue and is rejected by the reason that won. */
    method WithdrawRequest(handle: nat)
      requires Valid()
      modifies this`settled, requests
      ensures Valid()
      ensures View() == Withdrawn(old(View()), handle)
    {
      BelowWithout(requests.items, IndexOf(requests.items, handle), nextHandle);
      var removed := requests.Remove(handle);
      if removed { Complete(handle, Rejected(CancellationCode(CellOf(cells, handle)))); }
    }

    // ----- Mutations -----

    method InvalidateRequests()
      requires Valid()
      modifies this, requests
      ensures Valid() && View() == InvalidateReads(old(View()))
    {
      CancelRunning(ContentModified);
      RejectQueuedReads(ContentModified, ContentModifiedError);
    }

    method RejectMutationAndRestart()
      requires Valid()
      modifies this, requests
      ensures Valid() && View() == RejectAndRestart(old(View()))
    {
      Complete(nextHandle, Rejected(RestartRequired));
      nextHandle := nextHandle + 1;
      BeginShutdown(RestartRequired);
    }

    method CountDocuments() returns (count: nat)
      ensures count == QueuedDocuments(edits, |edits|)
    {
      count := 0;
      for n := 0 to |edits|
        invariant count == QueuedDocuments(edits, n)
      {
        if !edits[n].input.Workspace? { count := count + 1; }
      }
    }

    /** The record the mutation ends up in; none when the merge has too many paths or does
        not encode. */
    method Merged(m: Mutation, at: int) returns (next: Option<Mutation>)
      requires at == Absorber(Inputs(edits), m)
      ensures next.None? <==> MergeRefused(edits, m)
      ensures next.Some? ==> next.value == if at < 0 then m else Merge(edits[at].input, m)
    {
      AbsorberIsAlike(Inputs(edits), m);
      if at < 0 { return Some(m); }
      var merged;
      if m.Workspace? {
        var batch := MergeWorkspaceInvalidations(edits[at].input.batch, m.batch);
        merged := Workspace(batch);
      } else {
        merged := MergeDocument(edits[at].input, m);
      }
      next := if Canonical(merged) then Some(merged) else None;
    }

    /** Puts the record in place once everything before it is revoked. */
    method Enqueue(m: Mutation, next: Mutation, at: int, text: int, fate: Fate)
      requires at == Absorber(Inputs(edits), m) && next == if at < 0 then m else Merge(edits[at].input, m)
      requires var after := Queued(edits, m, nextHandle, fate); text == QueuedText(after, |after|)
      modifies this`edits, this`queuedText, this`nextHandle
      ensures View() == EnqueueEdit(old(View()), m, fate)
      ensures nextHandle == old(nextHandle) || nextHandle == old(nextHandle) + 1
    {
      queuedText := text;
      if at >= 0 {
        edits := edits[at := Edit(edits[at].handle, next, fate)];
      } else {
        edits := edits + [Edit(nextHandle, m, fate)];
        nextHandle := nextHandle + 1;
      }
    }

    /** An accepted mutation: every read before it is revoked, then it is queued. */
    method AcceptMutation(m: Mutation, next: Mutation, at: int, text: int, fate: Fate)
      requires Valid()
      requires at == Absorber(Inputs(edits), m) && next == if at < 0 then m else Merge(edits[at].input, m)
      requires var after := Queued(edits, m, nextHandle, fate); text == QueuedText(after, |after|)
      modifies this, requests
      ensures Valid() && View() == Accepted(old(View()), m, fate)
    {
      CountMutation(m);
      InvalidateRequests();
      BelowMore(requests.items, nextHandle, nextHandle + 1);
      Enqueue(m, next, at, text, fate);
    }

    method CountMutation(m: Mutation)
      modifies this`generation, this`accepted
      ensures View() == old(View()).(generation := old(generation) + 1, accepted := old(accepted) + [m])
    {
      generation := generation + 1;
      accepted := accepted + [m];
    }

    /** Whether the queue can take the mutation, and what it would then hold. */
    method Weigh(m: Mutation, fate: Fate) returns (w: Weighed)
      requires queuedText == QueuedText(edits, |edits|)
      ensures w.Refused? <==> MergeRefused(edits, m) || !QueueFits(Queued(edits, m, nextHandle, fate))
      ensures w.Room? ==>
        && w.at == Absorber(Inputs(edits), m) && w.next == (if w.at < 0 then m else Merge(edits[w.at].input, m))
        && var after := Queued(edits, m, nextHandle, fate); w.text == QueuedText(after, |after|)
    {
      var at := FindCoalescing(Inputs(edits), m);
      var next := Merged(m, at);
      if next.None? { return Refused; }
      SumsOfQueued(edits, m, nextHandle, fate, at);
      var text := queuedText - (if at < 0 then 0 else TextBytes(edits[at].input)) + TextBytes(next.value);
      var documents := CountDocuments();
      documents := documents + if at < 0 && !m.Workspace? then 1 else 0;
      var records := |edits| + if at < 0 then 1 else 0;
      if documents > MAX_QUEUED_EDITS || records > MAX_QUEUED_EDITS || text > MAX_TEXT_BYTES { return Refused; }
      w := Room(at, next.value, text);
    }

    method DoMutate(m: Mutation, fate: Fate)
      requires Valid() && queuedText == QueuedText(edits, |edits|)
      modifies this, requests
      ensures Valid() && View() == Mutate(old(View()), m, fate)
    {
      if disposed || (m.Workspace? && !FlagRules(m.batch)) { return; }
      if !Transportable(m) {
        RejectMutationAndRestart();
        return;
      }
      if !Envelope.EditEncodes(m, 1) { return; }
      var w := Weigh(m, fate);
      if w.Refused? {
        RejectMutationAndRestart();
      } else {
        AcceptMutation(m, w.next, w.at, w.text, fate);
        DoPump();
      }
    }
  }
}
