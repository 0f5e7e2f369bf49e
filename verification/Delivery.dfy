/** Good answers are delivered. */
module Delivery {
  // What becomes of a read is read off the events of the run since its admission: the
  // first of them that revokes it gives its code, and without one it gets its answer.

  import opened Options
  import opened Mutations
  import opened Lanes
  import opened Supervisor
  import opened ParentLaws
  import opened Growth
  import PendingReads

  // ----- The events that revoke a read -----

  /** The handler just failed the supervisor. */
  function Broke(p: Parent, q: Parent): Option<Code> {
    if p.failure.None? && q.failure.Some? then Some(WorkerUnavailable) else None
  }

  /** The code under which event `e`, from `p` to `q`, revokes the read `h`: an accepted
      mutation, the client's own cancellation, disposal, or the failure of the supervisor. */
  function Revocation(p: Parent, e: Event, q: Parent, h: nat): Option<Code> {
    match e
    case Mutating(_, _) => if |q.accepted| > |p.accepted| then Some(ContentModifiedError) else Broke(p, q)
    case Cancelling(g, reason) => if g == h then ByReason(reason) else None
    case Disposing => Some(WorkerUnavailable)
    case _ => Broke(p, q)
  }

  function ByReason(reason: Cell): Option<Code> {
    match reason
    case Active => None
    case ClientCancelled => Some(ClientCancelledError)
    case ContentModified => Some(ContentModifiedError)
    case SupervisorDisposing => Some(WorkerUnavailable)
  }

  /** One handler runs for each event. */
  ghost predicate Trace(es: seq<Event>, ps: seq<Parent>) {
    |ps| == |es| + 1 && ps[0] == Start && forall i :: 0 <= i < |es| ==> LeadsAt(es, ps, i)
  }

  ghost predicate LeadsAt(es: seq<Event>, ps: seq<Parent>, i: nat)
    requires i < |es| == |ps| - 1
  {
    Leads(ps[i], es[i], ps[i + 1])
  }

  ghost predicate Leads(p: Parent, e: Event, q: Parent) { q == Handle(p, e) }

  /** The first revocation of `h` among the events after its admission at `k`. */
  function First(es: seq<Event>, ps: seq<Parent>, k: nat, n: nat, h: nat): Option<Code>
    requires k < n < |ps| == |es| + 1
  {
    if n == k + 1 then Broke(ps[k], ps[n])
    else Earlier(First(es, ps, k, n - 1, h), Revocation(ps[n - 1], es[n - 1], ps[n], h))
  }

  function Earlier(a: Option<Code>, b: Option<Code>): Option<Code> { if a.Some? then a else b }

  // ----- Reads that are queued or running -----

  predicate Holds(s: Slot, h: nat) { s.Reading? && s.query.handle == h }

  predicate Waiting(p: Parent, h: nat) {
    Holds(p.active, h) || Holds(p.detached, h) || exists i :: 0 <= i < |p.queries| && p.queries[i].handle == h
  }

  /** Every waiting read has a cell, and the two slots have different ids. */
  ghost predicate Books(p: Parent) {
    && (forall i :: 0 <= i < |p.queries| ==> p.queries[i].handle in p.cells)
    && (p.active.Reading? ==> p.active.query.handle in p.cells && p.active.id < p.nextId)
    && (p.detached.Reading? ==> p.detached.query.handle in p.cells && p.detached.id < p.nextId)
    && (p.active.Reading? && p.detached.Reading? ==> p.active.id != p.detached.id)
  }

  /** The cell holds the reason that stands for the code. */
  predicate Tells(c: Cell, code: Code) { ByReason(c) == Some(code) }

  /** A read waiting in `q` waited in `p`; its cell is as it was, or the first to be set. */
  ghost predicate Moves(p: Parent, q: Parent, h: nat, code: Option<Code>) {
    Waiting(q, h) ==>
      && Waiting(p, h)
      && if code.None? || !CellOf(p.cells, h).Active? then CellOf(q.cells, h) == CellOf(p.cells, h)
         else Tells(CellOf(q.cells, h), code.value)
  }

  lemma MovesTwice(p: Parent, q: Parent, r: Parent, h: nat, a: Option<Code>, b: Option<Code>)
    requires Moves(p, q, h, a) && Moves(q, r, h, b)
    ensures Moves(p, r, h, Earlier(a, b))
  {
  }

  // ----- Cells -----

  lemma CancelTells(cells: map<nat, Cell>, g: nat, reason: Cell, h: nat)
    requires !reason.Active?
    ensures var c := Cancel(cells, g, reason);
      CellOf(c, h) == (if g == h && CellOf(cells, h).Active? then reason else CellOf(cells, h))
      && forall x :: x in cells ==> x in c
  {
  }

  lemma {:induction false} CancelAllTells(cells: map<nat, Cell>, queries: seq<Read>, n: nat, reason: Cell, h: nat)
    requires n <= |queries| && !reason.Active?
    ensures var c := CancelAll(cells, queries, n, reason);
      && (CellOf(c, h) == CellOf(cells, h) || (CellOf(cells, h).Active? && CellOf(c, h) == reason))
      && forall x :: x in cells ==> x in c
  {
    if n > 0 { CancelAllTells(cells, queries, n - 1, reason, h); }
  }

  // ----- Failing -----

  lemma RetireMoves(p: Parent, code: Code, h: nat)
    requires Books(p)
    ensures Books(Retire(p, code)) && Moves(p, Retire(p, code), h, Some(WorkerUnavailable))
  {
    var a := CancelSlot(p.cells, p.active, SupervisorDisposing);
    var b := CancelSlot(a, p.detached, SupervisorDisposing);
    CancelAllTells(b, p.queries, |p.queries|, SupervisorDisposing, h);
  }

  lemma SettleActiveMoves(p: Parent, code: Code, h: nat)
    requires Books(p)
    ensures Books(SettleActive(p, code)) && Moves(p, SettleActive(p, code), h, None)
  {
  }

  lemma SettleDetachedMoves(p: Parent, code: Code, h: nat)
    requires Books(p)
    ensures Books(SettleDetached(p, code)) && Moves(p, SettleDetached(p, code), h, None)
  {
  }

  lemma ShutdownMoves(p: Parent, code: Code, h: nat)
    requires Books(p)
    ensures Books(Shutdown(p, code)) && Moves(p, Shutdown(p, code), h, Broke(p, Shutdown(p, code)))
  {
    if p.failure.None? { RetireMoves(p.(failure := Some(code)), code, h); }
  }

  lemma FailMoves(p: Parent, terminal: bool, h: nat)
    requires Books(p)
    ensures Books(Fail(p, terminal)) && Moves(p, Fail(p, terminal), h, Broke(p, Fail(p, terminal)))
  {
    if p.failure.Some? {
      SettleActiveMoves(p, p.failure.value, h);
    } else {
      var q := Shutdown(p, WorkerUnavailable);
      ShutdownMoves(p, WorkerUnavailable, h);
      SettleActiveMoves(q, WorkerUnavailable, h);
      SettleDetachedMoves(SettleActive(q, WorkerUnavailable), WorkerUnavailable, h);
    }
  }

  // ----- Sending -----

  lemma StartEditMoves(p: Parent, h: nat)
    requires Books(p) && p.edits != [] && p.active.Idle?
    ensures Books(StartEdit(p)) && Moves(p, StartEdit(p), h, Broke(p, StartEdit(p)))
  {
    FailMoves(Begun(p), false, h);
  }

  lemma FailedMoves(p: Parent, before: Parent, next: Parent, h: nat)
    requires Books(before) && Moves(p, before, h, None) && before.failure == p.failure && next == Fail(before, false)
    ensures Books(next) && Moves(p, next, h, Broke(p, next))
  {
    FailMoves(before, false, h);
    MovesTwice(p, before, next, h, None, Broke(before, next));
  }

  lemma DroppedMoves(p: Parent, taken: Parent, q: Read, dropped: Parent, h: nat)
    requires Books(taken) && Moves(p, taken, h, None) && dropped == Dropped(taken, q)
    ensures Books(dropped) && Moves(p, dropped, h, None)
  {
  }

  lemma StartReadMoves(p: Parent, taken: Parent, q: Read, next: Parent, h: nat)
    requires Books(p) && p.active.Idle? && Choice(p).index >= 0 && q == p.queries[Choice(p).index]
    requires taken == Taken(p) && next == StartRead(taken, q)
    ensures Books(next) && Moves(p, next, h, Broke(p, next))
  {
    TakenMoves(p, taken, h);
    if !Encodes(taken, q) || (q.op == References && taken.detached.Reading?) {
      DroppedMoves(p, taken, q, Dropped(taken, q), h);
      FailedMoves(p, Dropped(taken, q), next, h);
    } else {
      PlacedMoves(p, taken, q, Placed(taken, q), h);
      if q.fate.Sends? {
        SentMoves(p, Placed(taken, q), next, h);
      } else {
        FailedMoves(p, Placed(taken, q), next, h);
      }
    }
  }

  /** Only the log differs. */
  lemma SentMoves(p: Parent, placed: Parent, next: Parent, h: nat)
    requires Books(placed) && Moves(p, placed, h, None) && placed.failure == p.failure
    requires next == placed.(sent := next.sent)
    ensures Books(next) && Moves(p, next, h, Broke(p, next))
  {
  }

  lemma TakenMoves(p: Parent, taken: Parent, h: nat)
    requires Books(p) && Choice(p).index >= 0 && taken == Taken(p)
    ensures Books(taken) && Moves(p, taken, h, None)
  {
    var at := Choice(p).index;
    forall i | 0 <= i < |taken.queries| ensures taken.queries[i] in p.queries {
      assert taken.queries[i] == if i < at then p.queries[i] else p.queries[i + 1];
    }
  }

  lemma PlacedMoves(p: Parent, taken: Parent, q: Read, placed: Parent, h: nat)
    requires Books(p) && Books(taken) && Moves(p, taken, h, None) && taken.cells == p.cells && p.active.Idle?
    requires q in p.queries && placed == Placed(taken, q) && taken.active == p.active
    requires q.op == References ==> !taken.detached.Reading?
    ensures Books(placed) && Moves(p, placed, h, None)
  {
  }

  lemma {:induction false} PumpMoves(p: Parent, h: nat)
    requires Sound(p) && Books(p)
    ensures Books(Pump(p)) && Moves(p, Pump(p), h, Broke(p, Pump(p)))
    decreases |p.queries|
  {
    if p.active.Idle? && !p.disposed {
      if p.edits != [] {
        StartEditMoves(p, h);
      } else if Choice(p).index >= 0 {
        var next := Started(p);
        ChosenStarts(p);
        PumpReads(p);
        StartReadMoves(p, Taken(p), p.queries[Choice(p).index], next, h);
        PumpMoves(next, h);
        MovesTwice(p, next, Pump(next), h, Broke(p, next), Broke(next, Pump(next)));
      }
    }
  }

  // ----- The handlers -----

  lemma AcceptedMoves(p: Parent, m: Mutation, fate: Fate, h: nat)
    requires Books(p)
    ensures Books(Accepted(p, m, fate)) && Moves(p, Accepted(p, m, fate), h, Some(ContentModifiedError))
  {
    var a := CancelSlot(p.cells, p.active, ContentModified);
    var b := CancelSlot(a, p.detached, ContentModified);
    CancelAllTells(b, p.queries, |p.queries|, ContentModified, h);
  }

  lemma RestartMoves(p: Parent, q: Parent, h: nat)
    requires Books(p) && q == RejectAndRestart(p)
    ensures Books(q) && Moves(p, q, h, Broke(p, q)) && q.accepted == p.accepted
  {
    ShutdownMoves(Settle(p, p.nextHandle, Rejected(RestartRequired)).(nextHandle := p.nextHandle + 1),
                  RestartRequired, h);
  }

  lemma TakenUpMoves(p: Parent, m: Mutation, fate: Fate, accepted: Parent, q: Parent, h: nat)
    requires Sound(p) && Books(p) && accepted == Accepted(p, m, fate) && Sound(accepted) && q == Pump(accepted)
    ensures Books(q) && Moves(p, q, h, Some(ContentModifiedError)) && |q.accepted| > |p.accepted|
  {
    AcceptedMoves(p, m, fate, h);
    PumpMoves(accepted, h);
    MovesTwice(p, accepted, q, h, Some(ContentModifiedError), Broke(accepted, q));
    PumpGrows(accepted);
  }

  lemma MutateMoves(p: Parent, m: Mutation, fate: Fate, q: Parent, h: nat)
    requires Sound(p) && Books(p) && q == Mutate(p, m, fate)
    ensures Books(q)
    ensures Moves(p, q, h, if |q.accepted| > |p.accepted| then Some(ContentModifiedError) else Broke(p, q))
  {
    if !Invalid(p, m) {
      if !Transportable(m) || MergeRefused(p.edits, m) || !QueueFits(Queued(p.edits, m, p.nextHandle, fate)) {
        RestartMoves(p, q, h);
      } else {
        AcceptedSound(p, m, fate);
        TakenUpMoves(p, m, fate, Accepted(p, m, fate), q, h);
      }
    }
  }

  lemma JoinedMoves(p: Parent, q: Read, joined: Parent, h: nat)
    requires Books(p) && q.handle == p.nextHandle && joined == Joined(p, q)
    ensures Books(joined) && (h < p.nextHandle ==> Moves(p, joined, h, None))
    ensures h == p.nextHandle ==> CellOf(joined.cells, h).Active?
  {
    forall x | x in p.cells ensures x in joined.cells {}
  }

  lemma OverflowedMoves(p: Parent, q: Read, h: nat)
    requires Books(p) && q.handle == p.nextHandle && h < p.nextHandle
    ensures Books(Overflowed(p, q)) && Moves(p, Overflowed(p, q), h, None)
  {
  }

  lemma RequestMoves(p: Parent, r: Read, q: Parent, h: nat)
    requires Sound(p) && Books(p) && r.handle == p.nextHandle && r.generation == p.generation && q == Request(p, r)
    requires h < p.nextHandle
    ensures Books(q) && Moves(p, q, h, Broke(p, q))
  {
    if !Refuses(p, r) {
      if PendingReads.Admits(p.queries, r) {
        JoinedSound(p, r);
        JoinedMoves(p, r, Joined(p, r), h);
        PumpMoves(Joined(p, r), h);
        MovesTwice(p, Joined(p, r), q, h, None, Broke(Joined(p, r), q));
      } else {
        OverflowedMoves(p, r, h);
      }
    }
  }

  lemma CancelMoves(p: Parent, g: nat, reason: Cell, q: Parent, h: nat)
    requires Books(p) && !reason.Active? && q == CancelRequest(p, g, reason)
    ensures Books(q) && Moves(p, q, h, if g == h then ByReason(reason) else None)
  {
    if g in p.cells {
      var at := IndexOf(p.queries, g);
      var fewer := if q.queries == p.queries then p.queries else Without(p.queries, at);
      forall i | 0 <= i < |fewer| ensures fewer[i] in p.queries {
        if q.queries != p.queries { WithoutIsPart(p.queries, at, i); }
      }
      CancelShape(p, g, reason, q, fewer);
      CancelledMoves(p, g, reason, q, fewer, h);
    } else {
      UnknownIsNotWaiting(p, g);
    }
  }

  lemma UnknownIsNotWaiting(p: Parent, g: nat)
    requires Books(p) && g !in p.cells
    ensures !Waiting(p, g)
  {
  }

  lemma CancelShape(p: Parent, g: nat, reason: Cell, q: Parent, fewer: seq<Read>)
    requires g in p.cells && !reason.Active? && q == CancelRequest(p, g, reason)
    requires fewer == (if q.queries == p.queries then p.queries else Without(p.queries, IndexOf(p.queries, g)))
    ensures q.queries == fewer && q.active == p.active && q.detached == p.detached && q.nextId == p.nextId
    ensures q.cells == Cancel(p.cells, g, reason)
  {
  }

  lemma CancelledMoves(p: Parent, g: nat, reason: Cell, q: Parent, fewer: seq<Read>, h: nat)
    requires Books(p) && !reason.Active? && q.queries == fewer && q.active == p.active && q.detached == p.detached
    requires q.nextId == p.nextId && q.cells == Cancel(p.cells, g, reason)
    requires forall i :: 0 <= i < |fewer| ==> fewer[i] in p.queries
    ensures Books(q) && Moves(p, q, h, if g == h then ByReason(reason) else None)
  {
    CancelTells(p.cells, g, reason, h);
  }

  lemma WithoutIsPart(queries: seq<Read>, at: int, i: nat)
    requires i < |Without(queries, at)|
    ensures Without(queries, at)[i] in queries
  {
  }

  lemma DisposeMoves(p: Parent, h: nat)
    requires Sound(p) && Books(p)
    ensures Books(Dispose(p)) && Moves(p, Dispose(p), h, Some(WorkerUnavailable))
  {
    if !p.closing { RetireMoves(p.(closing := true), WorkerUnavailable, h); }
  }

  lemma DeadlineMoves(p: Parent, disposal: bool, h: nat)
    requires Books(p)
    ensures Books(Deadline(p, disposal)) && Moves(p, Deadline(p, disposal), h, None)
  {
    if Due(p, disposal).Some? {
      var code := Due(p, disposal).value;
      SettleActiveMoves(p, code, h);
      SettleDetachedMoves(SettleActive(p, code), code, h);
    }
  }

  lemma FreedMoves(p: Parent, freed: Parent, q: Parent, h: nat)
    requires Books(p) && Sound(freed) && freed.failure == p.failure && freed.cells == p.cells
    requires freed.queries == p.queries && freed.nextId == p.nextId && q == Pump(freed)
    requires (freed.active == p.active && freed.detached.Idle?) || (freed.active.Idle? && freed.detached == p.detached)
    ensures Books(q) && Moves(p, q, h, Broke(p, q))
  {
    PumpMoves(freed, h);
    MovesTwice(p, freed, q, h, None, Broke(freed, q));
  }

  lemma ReceiveMoves(p: Parent, m: ToParent, q: Parent, h: nat)
    requires Sound(p) && Books(p) && q == Receive(p, m)
    ensures Books(q) && Moves(p, q, h, Broke(p, q))
  {
    match Received(p, m) {
      case Ignored =>
      case Unexpected => FailMoves(p, false, h);
      case AnswersEdit =>
        FreeActiveSound(p, Acknowledged, p.active.revision);
        FreedMoves(p, FreeActive(p, Acknowledged, p.active.revision), q, h);
      case AnswersRead =>
        FreeActiveSound(p, SlotOutcome(p, p.active, m), p.applied);
        FreedMoves(p, FreeActive(p, SlotOutcome(p, p.active, m), p.applied), q, h);
      case AnswersDetached =>
        FreeDetachedSound(p, SlotOutcome(p, p.detached, m));
        FreedMoves(p, FreeDetached(p, SlotOutcome(p, p.detached, m)), q, h);
    }
  }

  /** Each handler keeps the books, and revokes a waiting read exactly as the event says. */
  lemma HandleMoves(p: Parent, e: Event, q: Parent, h: nat)
    requires Sound(p) && Books(p) && Leads(p, e, q)
    ensures Books(q) && (h < p.nextHandle ==> Moves(p, q, h, Revocation(p, e, q, h)))
  {
    match e {
      case Mutating(m, fate) => MutateMoves(p, m, fate, q, h);
      case Requesting(_, _, _, _, _, _) => RequestedMoves(p, NewRead(p, e), q, h);
      case Cancelling(g, reason) => if !reason.Active? { CancelMoves(p, g, reason, q, h); }
      case Disposing => DisposeMoves(p, h);
      case DeadlinePasses(disposal) => DeadlineMoves(p, disposal, h);
      case EndpointFails => FailMoves(p, true, h);
      case Receiving(m) => ReceiveMoves(p, m, q, h);
    }
  }

  lemma RequestedMoves(p: Parent, r: Read, q: Parent, h: nat)
    requires Sound(p) && Books(p) && r.handle == p.nextHandle && r.generation == p.generation && q == Request(p, r)
    ensures Books(q) && (h < p.nextHandle ==> Moves(p, q, h, Broke(p, q)))
    ensures h == p.nextHandle && Waiting(q, h) ==>
      if Broke(p, q).Some? then Tells(CellOf(q.cells, h), Broke(p, q).value) else CellOf(q.cells, h).Active?
  {
    if !Refuses(p, r) && PendingReads.Admits(p.queries, r) {
      JoinedSound(p, r);
      JoinedMoves(p, r, Joined(p, r), h);
      PumpMoves(Joined(p, r), h);
    }
    if h < p.nextHandle { RequestMoves(p, r, q, h); }
  }

  // ----- Every run -----

  lemma RunLeads(es: seq<Event>, i: nat)
    requires i < |es|
    ensures Leads(ParentLaws.Run(es, i), es[i], ParentLaws.Run(es, i + 1))
  {
  }

  /** The traces are the runs. */
  lemma RunIsTrace(es: seq<Event>, ps: seq<Parent>)
    requires |ps| == |es| + 1 && forall i :: 0 <= i < |ps| ==> ps[i] == ParentLaws.Run(es, i)
    ensures Trace(es, ps)
  {
    forall i | 0 <= i < |es| ensures LeadsAt(es, ps, i) { RunLeads(es, i); }
  }

  lemma {:induction false} TraceIsRun(es: seq<Event>, ps: seq<Parent>, n: nat)
    requires Trace(es, ps) && n < |ps|
    ensures ps[n] == ParentLaws.Run(es, n)
  {
    if n > 0 {
      TraceIsRun(es, ps, n - 1);
      assert LeadsAt(es, ps, n - 1);
    }
  }

  lemma StepKeepsBooks(p: Parent, e: Event, q: Parent)
    requires Sound(p) && Books(p) && Leads(p, e, q)
    ensures Sound(q) && Books(q)
  {
    HandleSound(p, e);
    HandleMoves(p, e, q, 0);
  }

  lemma StartsSound()
    ensures Sound(Start) && Books(Start)
  {
  }

  lemma {:induction false} BooksInEveryRun(es: seq<Event>, ps: seq<Parent>, n: nat)
    requires Trace(es, ps) && n < |ps|
    ensures Sound(ps[n]) && Books(ps[n])
  {
    if n == 0 {
      StartsSound();
    } else {
      BooksInEveryRun(es, ps, n - 1);
      assert LeadsAt(es, ps, n - 1);
      StepKeepsBooks(ps[n - 1], es[n - 1], ps[n]);
    }
  }

  /** The read was admitted by event `k`: it waits right after it under a new handle. */
  predicate AdmittedAt(es: seq<Event>, ps: seq<Parent>, k: nat, h: nat)
    requires k < |es| == |ps| - 1
  {
    es[k].Requesting? && h == ps[k].nextHandle && Waiting(ps[k + 1], h)
  }

  lemma WaitingIsOld(p: Parent, h: nat)
    requires Sound(p) && Waiting(p, h)
    ensures h < p.nextHandle
  {
  }

  /** A waiting read's cell tells what revoked it first. */
  predicate Tracked(p: Parent, h: nat, revoked: Option<Code>) {
    Waiting(p, h) ==>
      var c := CellOf(p.cells, h);
      if revoked.None? then c.Active? else Tells(c, revoked.value)
  }

  lemma AdmissionTells(es: seq<Event>, ps: seq<Parent>, k: nat, h: nat)
    requires Trace(es, ps) && k < |es| && AdmittedAt(es, ps, k, h)
    ensures Tracked(ps[k + 1], h, Broke(ps[k], ps[k + 1])) && h < ps[k + 1].nextHandle
  {
    BooksInEveryRun(es, ps, k);
    BooksInEveryRun(es, ps, k + 1);
    WaitingIsOld(ps[k + 1], h);
    assert LeadsAt(es, ps, k);
    RequestedMoves(ps[k], NewRead(ps[k], es[k]), ps[k + 1], h);
  }

  lemma StepTells(es: seq<Event>, ps: seq<Parent>, n: nat, h: nat, before: Option<Code>)
    requires Trace(es, ps) && n < |es| && h < ps[n].nextHandle && Tracked(ps[n], h, before)
    ensures Tracked(ps[n + 1], h, Earlier(before, Revocation(ps[n], es[n], ps[n + 1], h)))
    ensures h < ps[n + 1].nextHandle
  {
    BooksInEveryRun(es, ps, n);
    assert LeadsAt(es, ps, n);
    HandleMoves(ps[n], es[n], ps[n + 1], h);
    HandleOwners(ps[n], es[n], h);
    MovedTells(ps[n], ps[n + 1], h, before, Revocation(ps[n], es[n], ps[n + 1], h));
  }

  lemma MovedTells(p: Parent, q: Parent, h: nat, before: Option<Code>, code: Option<Code>)
    requires Moves(p, q, h, code) && Tracked(p, h, before)
    ensures Tracked(q, h, Earlier(before, code))
  {
  }

  /** A read still waiting has waited since its admission, and its cell tells the first event
      that revoked it, if any did. */
  lemma {:induction false} CellTellsFirst(es: seq<Event>, ps: seq<Parent>, k: nat, n: nat, h: nat)
    requires Trace(es, ps) && k < n < |ps| && AdmittedAt(es, ps, k, h)
    ensures h < ps[n].nextHandle && Tracked(ps[n], h, First(es, ps, k, n, h))
  {
    if n == k + 1 {
      AdmissionTells(es, ps, k, h);
    } else {
      CellTellsFirst(es, ps, k, n - 1, h);
      StepTells(es, ps, n - 1, h, First(es, ps, k, n - 1, h));
    }
  }

  // ----- Delivery -----

  /** The message answers the command in the slot. */
  predicate Replies(s: Slot, m: ToParent) {
    && s.Reading? && m.Response? && m.id == s.id && m.revision == s.revision && m.version == s.query.version
  }

  predicate Addressed(p: Parent, m: ToParent, h: nat) {
    (Holds(p.active, h) && Replies(p.active, m)) || (Holds(p.detached, h) && Replies(p.detached, m))
  }

  /** What a read deserves: its answer, unless something revoked it before. */
  function Deserved(a: Answer, revoked: Option<Code>): Outcome {
    if revoked.Some? then Rejected(revoked.value)
    else match a
      case Success(start, finish, _) => Published(start, finish)
      case Failure(code) => Rejected(code)
  }

  lemma AddressedIsDelivered(p: Parent, m: ToParent, h: nat, revoked: Option<Code>, q: Parent)
    requires Books(p) && p.failure.None? && Addressed(p, m, h) && q == Receive(p, m)
    requires Tracked(p, h, revoked)
    ensures |p.settled| < |q.settled| && q.settled[|p.settled|] == Settled(h, Deserved(m.answer, revoked))
  {
    if Holds(p.detached, h) && Replies(p.detached, m) {
      assert Received(p, m).AnswersDetached?;
      PumpGrows(FreeDetached(p, SlotOutcome(p, p.detached, m)));
    } else {
      assert Received(p, m).AnswersRead?;
      PumpGrows(FreeActive(p, SlotOutcome(p, p.active, m), p.applied));
    }
  }

  /** In every run: when an open supervisor receives the answer to a read, it settles the
      read at once. The read gets exactly the answer, a value or the Worker's error, if no
      mutation was accepted, it was not cancelled and nothing was disposed or failed since its
      admission; otherwise the code of the first of these events. */
  lemma AnswersAreDelivered(es: seq<Event>, ps: seq<Parent>, k: nat, n: nat, m: ToParent, h: nat)
    requires Trace(es, ps) && k < n < |es| && AdmittedAt(es, ps, k, h) && es[n] == Receiving(m)
    requires ps[n].failure.None? && Addressed(ps[n], m, h)
    ensures |ps[n].settled| < |ps[n + 1].settled|
    ensures ps[n + 1].settled[|ps[n].settled|] == Settled(h, Deserved(m.answer, First(es, ps, k, n, h)))
  {
    BooksInEveryRun(es, ps, n);
    CellTellsFirst(es, ps, k, n, h);
    assert LeadsAt(es, ps, n);
    AddressedIsDelivered(ps[n], m, h, First(es, ps, k, n, h), ps[n + 1]);
  }

  /** A contiguous acknowledgement settles the running edit as acknowledged. */
  lemma AcknowledgementsAreDelivered(p: Parent, m: ToParent)
    requires p.failure.None? && p.active.Editing? && m.Ack? && m.revision == p.active.revision
    ensures var q := Receive(p, m);
      |p.settled| < |q.settled| && q.settled[|p.settled|] == Settled(p.active.edit.handle, Acknowledged)
  {
    assert Received(p, m).AnswersEdit?;
    PumpGrows(FreeActive(p, Acknowledged, p.active.revision));
  }

  // ----- Reads that get no answer -----

  /** A read that still runs when the supervisor is torn down keeps the code of its own
      cancellation, by the client or by an edit, if that came first. */
  function Stranded(revoked: Option<Code>, code: Code): Code {
    if revoked == Some(ClientCancelledError) || revoked == Some(ContentModifiedError) then revoked.value else code
  }

  predicate RejectedAs(p: Parent, q: Parent, h: nat, code: Code) {
    |p.settled| <= |q.settled| && Settled(h, Rejected(code)) in q.settled[|p.settled|..]
  }

  lemma ActiveIsStranded(p: Parent, code: Code, h: nat, revoked: Option<Code>, q: Parent)
    requires Holds(p.active, h) && Tracked(p, h, revoked) && q == SettleActive(p, code)
    ensures q.settled == p.settled + [Settled(h, Rejected(Stranded(revoked, code)))]
  {
  }

  lemma DetachedIsStranded(p: Parent, code: Code, h: nat, revoked: Option<Code>, q: Parent)
    requires Holds(p.detached, h) && Tracked(p, h, revoked) && q == SettleDetached(p, code)
    ensures q.settled == p.settled + [Settled(h, Rejected(Stranded(revoked, code)))]
  {
  }

  lemma SettlingKeeps(p: Parent, code: Code)
    ensures p.settled <= SettleActive(p, code).settled && SettleActive(p, code).cells == p.cells
    ensures p.settled <= SettleDetached(p, code).settled && SettleActive(p, code).detached == p.detached
  {
  }

  lemma StrandedIsSettled(p: Parent, code: Code, h: nat, revoked: Option<Code>, q: Parent)
    requires (Holds(p.active, h) || Holds(p.detached, h)) && Tracked(p, h, revoked)
    requires q == SettleDetached(SettleActive(p, code), code)
    ensures RejectedAs(p, q, h, Stranded(revoked, code))
  {
    var mid := SettleActive(p, code);
    SettlingKeeps(p, code);
    SettlingKeeps(mid, code);
    if Holds(p.active, h) {
      ActiveIsStranded(p, code, h, revoked, mid);
      assert q.settled[|p.settled|] == mid.settled[|p.settled|];
    } else {
      DetachedIsStranded(mid, code, h, revoked, q);
      assert q.settled[|mid.settled|] == Settled(h, Rejected(Stranded(revoked, code)));
    }
  }

  /** In every run: a deadline that is awaited rejects every running read, under its own
      cancellation or under the code of the disposal or the failure. */
  lemma DeadlinesRejectWhatRuns(es: seq<Event>, ps: seq<Parent>, k: nat, n: nat, disposal: bool, h: nat)
    requires Trace(es, ps) && k < n < |es| && AdmittedAt(es, ps, k, h) && es[n] == DeadlinePasses(disposal)
    requires Holds(ps[n].active, h) || Holds(ps[n].detached, h)
    requires if disposal then ps[n].closing else ps[n].failure.Some?
    ensures RejectedAs(ps[n], ps[n + 1], h,
      Stranded(First(es, ps, k, n, h), if disposal then WorkerUnavailable else ps[n].failure.value))
  {
    CellTellsFirst(es, ps, k, n, h);
    assert LeadsAt(es, ps, n);
    StrandedIsSettled(ps[n], Due(ps[n], disposal).value, h, First(es, ps, k, n, h), ps[n + 1]);
  }

  lemma DrainedIsRejected(p: Parent, reason: Cell, code: Code, i: nat)
    requires i < |p.queries|
    ensures RejectedAs(p, DrainReads(p, reason, code), p.queries[i].handle, code)
  {
    var q := DrainReads(p, reason, code);
    assert q.settled[|p.settled| + i] == Settled(p.queries[i].handle, Rejected(code));
  }

  lemma RetiredIsRejected(p: Parent, code: Code, i: nat)
    requires i < |p.queries|
    ensures RejectedAs(p, Retire(p, code), p.queries[i].handle, code)
  {
    var q := Retire(p, code);
    assert q.settled[|p.settled| + |p.edits| + i] == Settled(p.queries[i].handle, Rejected(code));
  }

  lemma RejectedStays(p: Parent, q: Parent, r: Parent, h: nat, code: Code)
    requires RejectedAs(p, q, h, code) && q.settled <= r.settled
    ensures RejectedAs(p, r, h, code)
  {
    var i :| |p.settled| <= i < |q.settled| && q.settled[i] == Settled(h, Rejected(code));
    assert r.settled[i] == q.settled[i];
  }

  lemma AcceptedRejects(p: Parent, m: Mutation, fate: Fate, i: nat, q: Parent)
    requires i < |p.queries| && q == Pump(Accepted(p, m, fate))
    ensures RejectedAs(p, q, p.queries[i].handle, ContentModifiedError)
  {
    var cells := CancelSlot(CancelSlot(p.cells, p.active, ContentModified), p.detached, ContentModified);
    var revoked := p.(generation := p.generation + 1, accepted := p.accepted + [m], cells := cells);
    DrainedIsRejected(revoked, ContentModified, ContentModifiedError, i);
    PumpGrows(Accepted(p, m, fate));
    RejectedStays(p, Accepted(p, m, fate), q, p.queries[i].handle, ContentModifiedError);
  }

  /** A queued read is rejected at once: by an accepted mutation as modified content, by a
      refused one as needing a restart, by disposal or a failing endpoint as unavailable. */
  lemma QueuedReadsAreRejected(p: Parent, e: Event, i: nat)
    requires Sound(p) && i < |p.queries|
    ensures var q, h := Handle(p, e), p.queries[i].handle;
      && (e.Mutating? && |q.accepted| > |p.accepted| ==> RejectedAs(p, q, h, ContentModifiedError))
      && (e.Mutating? && q.failure == Some(RestartRequired) ==> RejectedAs(p, q, h, RestartRequired))
      && (e.Disposing? || e.EndpointFails? ==> RejectedAs(p, q, h, WorkerUnavailable))
  {
    if e.Mutating? {
      MutationRejects(p, e.m, e.mutationFate, i, Handle(p, e));
    } else if e.Disposing? {
      RetiredIsRejected(p.(closing := true), WorkerUnavailable, i);
    } else if e.EndpointFails? {
      EndpointRejects(p, i, Handle(p, e));
    }
  }

  lemma EndpointRejects(p: Parent, i: nat, q: Parent)
    requires Sound(p) && i < |p.queries| && q == Fail(p, true)
    ensures RejectedAs(p, q, p.queries[i].handle, WorkerUnavailable)
  {
    var down := Shutdown(p, WorkerUnavailable);
    RetiredIsRejected(p.(failure := Some(WorkerUnavailable)), WorkerUnavailable, i);
    RejectedStays(p, down, SettleActive(down, WorkerUnavailable), p.queries[i].handle, WorkerUnavailable);
    RejectedStays(p, SettleActive(down, WorkerUnavailable), q, p.queries[i].handle, WorkerUnavailable);
  }

  lemma MutationRejects(p: Parent, m: Mutation, fate: Fate, i: nat, q: Parent)
    requires Sound(p) && i < |p.queries| && q == Mutate(p, m, fate)
    ensures |q.accepted| > |p.accepted| ==> RejectedAs(p, q, p.queries[i].handle, ContentModifiedError)
    ensures q.failure == Some(RestartRequired) ==> RejectedAs(p, q, p.queries[i].handle, RestartRequired)
  {
    if !Invalid(p, m) {
      if !Transportable(m) || MergeRefused(p.edits, m) || !QueueFits(Queued(p.edits, m, p.nextHandle, fate)) {
        RestartRejects(p, i, q);
        RestartAccepts(p, q);
      } else {
        AcceptedRejects(p, m, fate, i, q);
        AcceptedSound(p, m, fate);
        AcceptedBreaksAs(p, m, fate, Accepted(p, m, fate), q);
      }
    }
  }

  lemma RestartRejects(p: Parent, i: nat, q: Parent)
    requires Sound(p) && i < |p.queries| && q == RejectAndRestart(p)
    ensures RejectedAs(p, q, p.queries[i].handle, RestartRequired)
  {
    var r := Settle(p, p.nextHandle, Rejected(RestartRequired)).(nextHandle := p.nextHandle + 1);
    RetiredIsRejected(r.(failure := Some(RestartRequired)), RestartRequired, i);
  }

  lemma AcceptedBreaksAs(p: Parent, m: Mutation, fate: Fate, accepted: Parent, q: Parent)
    requires Sound(p) && p.queries != [] && accepted == Accepted(p, m, fate) && Sound(accepted) && q == Pump(accepted)
    ensures q.failure != Some(RestartRequired)
  {
    PumpBreaksAs(accepted);
  }

  lemma RestartAccepts(p: Parent, q: Parent)
    requires q == RejectAndRestart(p)
    ensures q.accepted == p.accepted
  {
  }

  /** The pump fails the supervisor only as unavailable. */
  lemma {:induction false} PumpBreaksAs(p: Parent)
    requires Sound(p)
    ensures Pump(p).failure == p.failure || Pump(p).failure == Some(WorkerUnavailable)
    decreases |p.queries|
  {
    if p.active.Idle? && !p.disposed && p.edits == [] && Choice(p).index >= 0 {
      ChosenStarts(p);
      PumpReads(p);
      StartReadBreaksAs(Taken(p), p.queries[Choice(p).index]);
      PumpBreaksAs(Started(p));
    }
  }

  lemma StartReadBreaksAs(p: Parent, q: Read)
    ensures StartRead(p, q).failure == p.failure || StartRead(p, q).failure == Some(WorkerUnavailable)
  {
  }

  lemma {:induction false} IndexFinds(items: seq<Read>, h: nat, n: nat, i: nat)
    requires i < n <= |items| && items[i].handle == h
    ensures IndexBelow(items, h, n) >= 0
  {
    if i < n - 1 { IndexFinds(items, h, n - 1, i); }
  }

  /** One cancellation of a queued read rejects it under its own reason. */
  lemma CancelledReadsAreRejected(p: Parent, reason: Cell, i: nat)
    requires Sound(p) && Books(p) && !reason.Active? && i < |p.queries|
    requires CellOf(p.cells, p.queries[i].handle).Active?
    requires !Holds(p.active, p.queries[i].handle) && !Holds(p.detached, p.queries[i].handle)
    ensures RejectedAs(p, CancelRequest(p, p.queries[i].handle, reason), p.queries[i].handle, ByReason(reason).value)
  {
    var h := p.queries[i].handle;
    var q := CancelRequest(p, h, reason);
    IndexFinds(p.queries, h, |p.queries|, i);
    assert q.settled[|p.settled|] == Settled(h, Rejected(ByReason(reason).value));
  }
}
