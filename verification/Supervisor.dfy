/** The parent side of one root: its state, and each event handler as one step.

    A handler is a function from state to state; `SupervisorObject.dfy` proves the
    imperative handlers against these functions, `Settlement.dfy` and `Protocol.dfy`
    prove the laws of every run. */
module Supervisor {
  import opened Options
  import opened Mutations
  import opened Lanes
  import PendingReads
  import Envelope

  const MAX_QUEUED_EDITS: nat := 32

  /** The shared cancellation cell of a read; the first reason wins. */
  datatype Cell = Active | ClientCancelled | ContentModified | SupervisorDisposing

  datatype Code = ClientCancelledError | ContentModifiedError | WorkerUnavailable | RestartRequired
    | QueueOverflow | WorkerError(nat)

  /** How a completion was settled. A published value names the Worker's knowledge when
      the read started and when it was answered. */
  datatype Outcome = Published(start: Knowledge, finish: Knowledge) | Acknowledged | Rejected(code: Code)

  datatype Settlement = Settled(handle: nat, outcome: Outcome)

  datatype Edit = Edit(handle: nat, input: Mutation, fate: Fate)

  datatype ToWorker =
    | EditMessage(revision: nat, input: Mutation)
    | ReadMessage(id: nat, revision: nat, query: Read)

  /** `position` is bookkeeping: where the answered command stands in the log of messages
      sent. The parent never looks at it. */
  datatype ToParent =
    | Ack(revision: nat, position: nat)
    | Response(id: nat, revision: nat, version: Option<nat>, answer: Answer, position: nat)

  /** `until` is how far in the log the Worker had come when it answered. */
  datatype Answer = Failure(code: Code) | Success(start: Knowledge, finish: Knowledge, until: nat)

  /** A command slot. `index` is the position of the command in the log. */
  datatype Slot = Idle | Editing(edit: Edit, revision: nat, index: nat)
    | Reading(query: Read, id: nat, revision: nat, index: nat)

  /** `sent` is the log of all messages ever sent, `settled` of all settlements ever made,
      `accepted` of all mutations ever accepted; `lost` are records that left their queue
      and are owned by nobody. `closing`: disposal was asked for. */
  datatype Parent = Parent(
    edits: seq<Edit>, queries: seq<Read>, bypassed: Option<nat>, active: Slot, detached: Slot,
    applied: nat, generation: nat, queuedText: int, nextId: nat, disposed: bool, closing: bool,
    failure: Option<Code>,
    cells: map<nat, Cell>, nextHandle: nat,
    sent: seq<ToWorker>, settled: seq<Settlement>, lost: seq<Read>, accepted: seq<Mutation>)

  const Start := Parent([], [], None, Idle, Idle, 0, 0, 0, 1, false, false, None, map[], 0, [], [], [], [])

  // ----- Cells and settlements -----

  function CellOf(cells: map<nat, Cell>, handle: nat): Cell {
    if handle in cells then cells[handle] else Active
  }

  /** Compare-and-exchange from `Active`. */
  function Cancel(cells: map<nat, Cell>, handle: nat, reason: Cell): map<nat, Cell> {
    if CellOf(cells, handle).Active? then cells[handle := reason] else cells
  }

  function CancelSlot(cells: map<nat, Cell>, slot: Slot, reason: Cell): map<nat, Cell> {
    if slot.Reading? then Cancel(cells, slot.query.handle, reason) else cells
  }

  function CancelAll(cells: map<nat, Cell>, queries: seq<Read>, n: nat, reason: Cell): map<nat, Cell>
    requires n <= |queries|
  {
    if n == 0 then cells else Cancel(CancelAll(cells, queries, n - 1, reason), queries[n - 1].handle, reason)
  }

  function CancellationCode(c: Cell): Code {
    if c.ClientCancelled? then ClientCancelledError
    else if c.ContentModified? then ContentModifiedError
    else WorkerUnavailable
  }

  function RejectEdits(edits: seq<Edit>, code: Code): (r: seq<Settlement>)
    ensures |r| == |edits|
  {
    seq(|edits|, i requires 0 <= i < |edits| => Settled(edits[i].handle, Rejected(code)))
  }

  function RejectReads(queries: seq<Read>, code: Code): (r: seq<Settlement>)
    ensures |r| == |queries|
  {
    seq(|queries|, i requires 0 <= i < |queries| => Settled(queries[i].handle, Rejected(code)))
  }

  function Settle(p: Parent, handle: nat, outcome: Outcome): Parent {
    p.(settled := p.settled + [Settled(handle, outcome)])
  }

  /** Empties both queues, rejecting everything in them. */
  function DrainReads(p: Parent, reason: Cell, code: Code): Parent {
    p.(queries := [], cells := CancelAll(p.cells, p.queries, |p.queries|, reason),
       settled := p.settled + RejectReads(p.queries, code))
  }

  function DrainEdits(p: Parent, code: Code): Parent {
    p.(edits := [], queuedText := 0, settled := p.settled + RejectEdits(p.edits, code))
  }

  // ----- Failure -----

  /** The code a stranded read is rejected with: its own cancellation first. */
  function StrandedCode(c: Cell, code: Code): Code {
    if c.ClientCancelled? || c.ContentModified? then CancellationCode(c) else code
  }

  function SettleActive(p: Parent, code: Code): Parent {
    match p.active
    case Idle => p
    case Editing(e, _, _) => Settle(p, e.handle, Rejected(code)).(active := Idle)
    case Reading(q, _, _, _) =>
      Settle(p, q.handle, Rejected(StrandedCode(CellOf(p.cells, q.handle), code))).(active := Idle)
  }

  function SettleDetached(p: Parent, code: Code): Parent {
    if !p.detached.Reading? then p
    else
      var h := p.detached.query.handle;
      Settle(p, h, Rejected(StrandedCode(CellOf(p.cells, h), code))).(detached := Idle)
  }

  /** Revokes running reads and rejects everything queued. */
  function Retire(p: Parent, code: Code): Parent {
    var cells := CancelSlot(CancelSlot(p.cells, p.active, SupervisorDisposing), p.detached, SupervisorDisposing);
    DrainReads(DrainEdits(p.(disposed := true, cells := cells), code), SupervisorDisposing, code)
  }

  function Shutdown(p: Parent, code: Code): Parent {
    if p.failure.Some? then p else Retire(p.(failure := Some(code)), code)
  }

  /** `terminal` when the endpoint itself reported an error or an exit. */
  function Fail(p: Parent, terminal: bool): Parent {
    if p.failure.Some? then (if terminal then SettleActive(p, p.failure.value) else p)
    else
      var q := Shutdown(p, WorkerUnavailable);
      if terminal then SettleDetached(SettleActive(q, WorkerUnavailable), WorkerUnavailable) else q
  }

  /** Once; a supervisor that failed before is disposed all the same. */
  function Dispose(p: Parent): Parent {
    if p.closing then p else Retire(p.(closing := true), WorkerUnavailable)
  }

  /** The code under which a deadline rejects what still runs, if it is awaited: that of the
      disposal, or that of the termination after a failure. */
  function Due(p: Parent, disposal: bool): Option<Code> {
    if !disposal then p.failure else if p.closing then Some(WorkerUnavailable) else None
  }

  /** Termination finished or the disposal deadline passed: what still runs is rejected. */
  function Deadline(p: Parent, disposal: bool): Parent {
    if Due(p, disposal).None? then p
    else SettleDetached(SettleActive(p, Due(p, disposal).value), Due(p, disposal).value)
  }

  // ----- Sending -----

  function Choice(p: Parent): Selection {
    Select(p.queries, p.detached.Reading?, p.bypassed)
  }

  /** The chosen read leaves its queue. */
  function Taken(p: Parent): Parent {
    p.(queries := Without(p.queries, Choice(p).index), bypassed := Choice(p).bypassed)
  }

  /** The chosen read was admitted before a later mutation. */
  function Stale(p: Parent, q: Read): Parent {
    Settle(p, q.handle, Rejected(ContentModifiedError)).(cells := Cancel(p.cells, q.handle, ContentModified))
  }

  /** Starts the next command: a queued edit first, then the read the scheduler selects;
      a `references` read is detached and leaves the command slot free. */
  function Pump(p: Parent): Parent
    decreases |p.queries|
  {
    if !p.active.Idle? || p.disposed then p
    else if p.edits != [] then StartEdit(p)
    else if Choice(p).index < 0 then p.(bypassed := Choice(p).bypassed)
    else
      var q := p.queries[Choice(p).index];
      if q.generation != p.generation then Pump(Stale(Taken(p), q))
      else if q.op == References && StartRead(Taken(p), q).failure.None? then Pump(StartRead(Taken(p), q))
      else StartRead(Taken(p), q)
  }

  /** The first queued edit takes the command slot. */
  function Begun(p: Parent): Parent
    requires p.edits != []
  {
    var e := p.edits[0];
    p.(edits := p.edits[1..], queuedText := p.queuedText - TextBytes(e.input),
       active := Editing(e, p.applied + 1, |p.sent|))
  }

  function Sent(p: Parent): Parent
    requires p.edits != []
  {
    Begun(p).(sent := p.sent + [EditMessage(p.applied + 1, p.edits[0].input)])
  }

  /** The edit encodes under its revision and the endpoint takes it. */
  predicate EditLeaves(e: Edit, revision: nat) {
    Envelope.EditEncodes(e.input, revision) && e.fate.Sends?
  }

  function StartEdit(p: Parent): Parent
    requires p.edits != []
  {
    if EditLeaves(p.edits[0], p.applied + 1) then Sent(p) else Fail(Begun(p), false)
  }

  /** Encoding the read, under the id and the revision at hand, does not throw. */
  predicate Encodes(p: Parent, q: Read) { Envelope.ReadEncodes(q.bytes, p.nextId, p.applied) }

  /** A read whose encoding throws, or that finds the detached lane busy, is owned by
      nobody when the failure handler runs. */
  function Dropped(p: Parent, q: Read): Parent {
    p.(nextId := p.nextId + 1, lost := p.lost + [q])
  }

  /** The read takes its slot: the detached one for `references`. */
  function Placed(p: Parent, q: Read): Parent {
    var slot := Reading(q, p.nextId, p.applied, |p.sent|);
    if q.op == References then p.(nextId := p.nextId + 1, detached := slot)
    else p.(nextId := p.nextId + 1, active := slot)
  }

  function StartRead(p: Parent, q: Read): Parent {
    if !Encodes(p, q) || (q.op == References && p.detached.Reading?) then Fail(Dropped(p, q), false)
    else if q.fate.Sends? then Placed(p, q).(sent := p.sent + [ReadMessage(p.nextId, p.applied, q)])
    else Fail(Placed(p, q), false)
  }

  // ----- Requests -----

  function Joined(p: Parent, q: Read): Parent {
    p.(nextHandle := p.nextHandle + 1, cells := p.cells[q.handle := Active], queries := p.queries + [q])
  }

  function Overflowed(p: Parent, q: Read): Parent {
    Settle(p, q.handle, Rejected(QueueOverflow)).(nextHandle := p.nextHandle + 1, cells := p.cells[q.handle := Active])
  }

  /** The request throws before it becomes a record: the supervisor is closed, or the input
      does not encode under the next id and revision 0. */
  predicate Refuses(p: Parent, q: Read) { p.disposed || !Envelope.ReadEncodes(q.bytes, p.nextId, 0) }

  ghost function Request(p: Parent, q: Read): Parent
    requires q.handle == p.nextHandle && q.generation == p.generation
  {
    if Refuses(p, q) then p
    else if PendingReads.Admits(p.queries, q) then Pump(Joined(p, q))
    else Overflowed(p, q)
  }

  /** A client's cancellation. A running read keeps its slot until the Worker answers. */
  function CancelRequest(p: Parent, handle: nat, reason: Cell): Parent
    requires !reason.Active?
  {
    if handle !in p.cells then p
    else
      var q := p.(cells := Cancel(p.cells, handle, reason));
      if (p.active.Reading? && p.active.query.handle == handle)
         || (p.detached.Reading? && p.detached.query.handle == handle) then q
      else
        var at := IndexOf(p.queries, handle);
        if at < 0 then q
        else Settle(q, handle, Rejected(CancellationCode(CellOf(q.cells, handle)))).(queries := Without(p.queries, at))
  }

  // ----- Mutations -----

  function Inputs(edits: seq<Edit>): (r: seq<Mutation>)
    ensures |r| == |edits|
  {
    seq(|edits|, i requires 0 <= i < |edits| => edits[i].input)
  }

  function QueuedText(edits: seq<Edit>, n: nat): nat
    requires n <= |edits|
  {
    if n == 0 then 0 else QueuedText(edits, n - 1) + TextBytes(edits[n - 1].input)
  }

  function QueuedDocuments(edits: seq<Edit>, n: nat): nat
    requires n <= |edits|
  {
    if n == 0 then 0 else QueuedDocuments(edits, n - 1) + if edits[n - 1].input.Workspace? then 0 else 1
  }

  /** Within the transport bounds of a single message. */
  predicate Transportable(m: Mutation) {
    TextBytes(m) <= MAX_TEXT_BYTES && (m.Workspace? ==> |m.batch.changes| <= MAX_FILE_CHANGES)
  }

  /** The queue after `m`: merged into an earlier record, or a new record at the tail. */
  function Queued(edits: seq<Edit>, m: Mutation, handle: nat, fate: Fate): seq<Edit> {
    var at := Absorber(Inputs(edits), m);
    if at < 0 then edits + [Edit(handle, m, fate)]
    else edits[at := Edit(edits[at].handle, Merge(edits[at].input, m), fate)]
  }

  predicate QueueFits(edits: seq<Edit>) {
    && QueuedDocuments(edits, |edits|) <= MAX_QUEUED_EDITS
    && |edits| <= MAX_QUEUED_EDITS
    && QueuedText(edits, |edits|) <= MAX_TEXT_BYTES
  }

  /** A mutation may be sent alone: few enough paths, and encodable under revision 1. */
  predicate Canonical(m: Mutation) {
    (m.Workspace? ==> |m.batch.changes| <= MAX_FILE_CHANGES) && Envelope.EditEncodes(m, 1)
  }

  /** What the two would become is not canonical. */
  predicate MergeRefused(edits: seq<Edit>, m: Mutation) {
    var at := Absorber(Inputs(edits), m);
    at >= 0 && !Canonical(Merge(edits[at].input, m))
  }

  /** The mutation throws before it becomes a record. */
  predicate Invalid(p: Parent, m: Mutation) {
    p.disposed || (m.Workspace? && !FlagRules(m.batch)) || (Transportable(m) && !Envelope.EditEncodes(m, 1))
  }

  /** Revokes every read: the running ones through their cells, the queued ones at once. */
  function InvalidateReads(p: Parent): Parent {
    var cells := CancelSlot(CancelSlot(p.cells, p.active, ContentModified), p.detached, ContentModified);
    DrainReads(p.(cells := cells), ContentModified, ContentModifiedError)
  }

  /** A mutation the queue cannot hold is rejected and ends the supervisor. */
  function RejectAndRestart(p: Parent): Parent {
    Shutdown(Settle(p, p.nextHandle, Rejected(RestartRequired)).(nextHandle := p.nextHandle + 1), RestartRequired)
  }

  function Mutate(p: Parent, m: Mutation, fate: Fate): Parent
  {
    if Invalid(p, m) then p
    else if !Transportable(m) || MergeRefused(p.edits, m)
            || !QueueFits(Queued(p.edits, m, p.nextHandle, fate)) then RejectAndRestart(p)
    else Pump(Accepted(p, m, fate))
  }

  /** The accepted mutation has joined the queue and every earlier read is revoked. */
  function Accepted(p: Parent, m: Mutation, fate: Fate): Parent {
    EnqueueEdit(InvalidateReads(p.(generation := p.generation + 1, accepted := p.accepted + [m])), m, fate)
  }

  function EnqueueEdit(p: Parent, m: Mutation, fate: Fate): Parent {
    var absorbed := Absorber(Inputs(p.edits), m) >= 0;
    var edits := Queued(p.edits, m, p.nextHandle, fate);
    p.(edits := edits, queuedText := QueuedText(edits, |edits|),
       nextHandle := if absorbed then p.nextHandle else p.nextHandle + 1)
  }

  // ----- Messages from the Worker -----

  function HandleOf(s: Slot): nat
    requires !s.Idle?
  {
    if s.Editing? then s.edit.handle else s.query.handle
  }

  /** The command slot's record is settled and the slot is free again. */
  function FreeActive(p: Parent, outcome: Outcome, applied: nat): Parent
    requires !p.active.Idle?
  {
    Settle(p, HandleOf(p.active), outcome).(active := Idle, applied := applied)
  }

  function FreeDetached(p: Parent, outcome: Outcome): Parent
    requires !p.detached.Idle?
  {
    Settle(p, HandleOf(p.detached), outcome).(detached := Idle)
  }

  /** What a message is to the parent. */
  datatype Reception = Ignored | Unexpected | AnswersEdit | AnswersRead | AnswersDetached

  function Received(p: Parent, m: ToParent): (r: Reception)
    ensures r.AnswersEdit? ==> p.active.Editing? && m.Ack? && m.revision == p.active.revision
    ensures r.AnswersRead? ==> p.active.Reading? && m.Response? && m.id == p.active.id
    ensures r.AnswersDetached? ==> p.detached.Reading? && m.Response? && m.id == p.detached.id
  {
    if p.failure.Some? then Ignored
    else if p.detached.Reading? && m.Response? && m.id == p.detached.id then
      if Matches(p.detached, m) then AnswersDetached else Unexpected
    else if p.active.Editing? && m.Ack? && m.revision == p.active.revision then AnswersEdit
    else if p.active.Reading? && m.Response? && m.id == p.active.id && Matches(p.active, m) then AnswersRead
    else Unexpected
  }

  function SlotOutcome(p: Parent, s: Slot, m: ToParent): Outcome
    requires s.Reading? && m.Response?
  {
    Settling(CellOf(p.cells, s.query.handle), m.answer)
  }

  function Receive(p: Parent, m: ToParent): Parent {
    match Received(p, m)
    case Ignored => p
    case Unexpected => Fail(p, false)
    case AnswersEdit => Pump(FreeActive(p, Acknowledged, p.active.revision))
    case AnswersRead => Pump(FreeActive(p, SlotOutcome(p, p.active, m), p.applied))
    case AnswersDetached => Pump(FreeDetached(p, SlotOutcome(p, p.detached, m)))
  }

  predicate Matches(s: Slot, m: ToParent) {
    s.Reading? && m.Response? && m.revision == s.revision && m.version == s.query.version
  }

  /** A revoked read is rejected whatever the Worker answered. */
  function Settling(c: Cell, a: Answer): Outcome {
    if !c.Active? then Rejected(CancellationCode(c))
    else if a.Success? then Published(a.start, a.finish)
    else Rejected(a.code)
  }
}
