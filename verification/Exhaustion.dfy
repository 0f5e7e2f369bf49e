/** Where sending can still fail. */
module Exhaustion {
  // A command that was admitted may not encode when it is sent: the request ids run out, or
  // the revision's digits pass the last bytes of the message.

  import opened Options
  import opened Text
  import opened Mutations
  import opened Lanes
  import opened Supervisor
  import opened Settlement
  import opened ParentLaws
  import opened Growth
  import opened Envelope
  import PendingReads

  // ----- A lost read stays lost -----

  lemma {:induction false} LostOnlyGrows(es: seq<Event>, m: nat, n: nat)
    requires m <= n <= |es|
    ensures ParentLaws.Run(es, m).lost <= ParentLaws.Run(es, n).lost
  {
    if m < n {
      LostOnlyGrows(es, m, n - 1);
      StepKeepsLost(ParentLaws.Run(es, n - 1), es[n - 1], ParentLaws.Run(es, n));
    }
  }

  lemma StepKeepsLost(p: Parent, e: Event, q: Parent)
    requires q == Handle(p, e)
    ensures p.lost <= q.lost
  {
    HandleGrows(p, e);
  }

  /** Nothing that can follow settles a read that was lost. */
  lemma LostIsNeverSettled(es: seq<Event>, m: nat, n: nat, i: nat)
    requires m <= n <= |es| && i < |ParentLaws.Run(es, m).lost|
    ensures ParentLaws.Run(es, m).lost[i].handle !in SettledHandles(ParentLaws.Run(es, n).settled)
  {
    LostOnlyGrows(es, m, n);
    OneOwnerInEveryRun(es, n);
    var p, h := ParentLaws.Run(es, n), ParentLaws.Run(es, m).lost[i].handle;
    assert p.lost[i].handle == h && ReadHandles(p.lost)[i] == h && h in ReadHandles(p.lost);
    assert Owners(p, h) <= 1;
  }

  // ----- Every id can be used -----

  /** Open, with nothing queued or running, and the next read gets `id`. */
  predicate Resting(p: Parent, id: nat) {
    && !p.disposed && p.failure.None? && p.edits == [] && p.queries == [] && p.active.Idle? && p.detached.Idle?
    && p.applied == 0 && p.nextId == id
  }

  const ASK := Requesting(Hover, "file:///root/a.ets", Some(1), false, 1, Sends)

  function Answering(id: nat): Event { Receiving(Response(id, 0, Some(1), Failure(WorkerError(0)), 0)) }

  lemma {:induction false} RunPrefix(es: seq<Event>, more: seq<Event>, n: nat)
    requires n <= |es|
    ensures ParentLaws.Run(es + more, n) == ParentLaws.Run(es, n)
  {
    if n > 0 {
      RunPrefix(es, more, n - 1);
      assert (es + more)[n - 1] == es[n - 1];
    }
  }

  lemma RunExtends(es: seq<Event>, e: Event)
    ensures ParentLaws.Run(es + [e], |es| + 1) == Handle(ParentLaws.Run(es, |es|), e)
  {
    RunPrefix(es, [e], |es|);
  }

  lemma RunExtendsTwice(es: seq<Event>, a: Event, b: Event)
    ensures var more := es + [a] + [b];
      ParentLaws.Run(more, |more|) == Handle(Handle(ParentLaws.Run(es, |es|), a), b)
  {
    RunExtends(es, a);
    RunExtends(es + [a], b);
  }

  /** A lone hover is admitted wherever its id encodes. */
  lemma LoneHoverJoins(p: Parent, q: Read)
    requires q == NewRead(p, ASK) && p.nextId <= MAX_SAFE && !p.disposed && |p.queries| <= 1
    requires forall i :: 0 <= i < |p.queries| ==> p.queries[i].uri == q.uri && p.queries[i].bytes == 1
    ensures !Refuses(p, q) && PendingReads.Admits(p.queries, q)
  {
    AdmittedReadEncodes(1, p.nextId, 0);
    assert PendingReads.Sources(p.queries + [q]) == {q.uri};
    if |p.queries| == 1 { assert PendingReads.Total(p.queries, 0) == 0; }
  }

  /** The hover that starts at once. */
  ghost function Asked(p: Parent): Slot { Reading(NewRead(p, ASK), p.nextId, 0, |p.sent|) }

  lemma HoverStarts(p: Parent, id: nat)
    requires Resting(p, id) && id <= MAX_SAFE
    ensures var r := Handle(p, ASK);
      Resting(r.(active := Idle), id + 1) && r.active == Asked(p)
      && r.cells == p.cells[p.nextHandle := Active] && r.nextHandle == p.nextHandle + 1
      && r.generation == p.generation && r.lost == p.lost
  {
    var q := NewRead(p, ASK);
    LoneHoverJoins(p, q);
    var j := Joined(p, q);
    assert j.queries == [q] && Choice(j).index == 0 && Without(j.queries, 0) == [];
    AdmittedReadEncodes(1, id, 0);
    assert Handle(p, ASK) == Pump(j) == StartRead(Taken(j), q);
  }

  lemma HoverEnds(p: Parent, r: Parent, id: nat)
    requires r.active == Asked(p) && p.nextId == id && Resting(r.(active := Idle), id + 1)
    ensures Resting(Handle(r, Answering(id)), id + 1)
  {
    var m := Answering(id).message;
    assert Received(r, m).AnswersRead?;
    var f := FreeActive(r, SlotOutcome(r, r.active, m), r.applied);
    assert Choice(f).index < 0;
    assert Handle(r, Answering(id)) == Pump(f);
  }

  lemma {:induction false} IdsAreUsed(id: nat) returns (es: seq<Event>)
    requires 1 <= id <= MAX_SAFE
    ensures Resting(ParentLaws.Run(es, |es|), id)
  {
    if id == 1 {
      es := [];
    } else {
      es := IdsAreUsed(id - 1);
      HoverPasses(ParentLaws.Run(es, |es|), id - 1);
      RunExtendsTwice(es, ASK, Answering(id - 1));
      es := es + [ASK] + [Answering(id - 1)];
    }
  }

  lemma HoverPasses(p: Parent, id: nat)
    requires Resting(p, id) && id <= MAX_SAFE
    ensures Resting(Handle(Handle(p, ASK), Answering(id)), id + 1)
  {
    HoverStarts(p, id);
    HoverEnds(p, Handle(p, ASK), id);
  }

  // ----- The read that finds no id left -----

  lemma HoverQueues(p: Parent)
    requires !p.disposed && p.failure.None? && p.active.Reading? && p.nextId <= MAX_SAFE && |p.queries| <= 1
    requires forall i :: 0 <= i < |p.queries| ==> p.queries[i].uri == ASK.uri && p.queries[i].bytes == 1
    ensures Handle(p, ASK) == Joined(p, NewRead(p, ASK))
  {
    LoneHoverJoins(p, NewRead(p, ASK));
  }

  /** Two hovers of one generation wait behind a running one, and one id is left. */
  predicate Last(p: Parent) {
    && !p.disposed && p.failure.None? && p.edits == [] && p.detached.Idle? && p.applied == 0
    && p.active.Reading? && p.active.query.op == Hover && p.active.revision == 0 && p.active.query.version == Some(1)
    && p.nextId == MAX_SAFE && p.lost == []
    && |p.queries| == 2 && forall i :: 0 <= i < 2 ==> Hovering(p.queries[i], p.generation)
  }

  predicate Hovering(q: Read, generation: nat) {
    q.op == Hover && q.generation == generation && q.bytes == 1 && q.fate.Sends? && q.version == Some(1)
  }

  lemma HoverIsChosen(p: Parent)
    requires p.queries != [] && p.detached.Idle?
    requires forall i :: 0 <= i < |p.queries| ==> p.queries[i].op == Hover
    ensures Choice(p).index == 0
  {
    if |p.queries| > 1 { AllAlike(p.queries, 1); }
  }

  lemma {:induction false} AllAlike(queries: seq<Read>, from: nat)
    requires 1 <= from <= |queries| && forall i :: 0 <= i < |queries| ==> queries[i].op == Hover
    ensures Best(queries, 0, from) == 0
    decreases |queries| - from
  {
    if from < |queries| { AllAlike(queries, from + 1); }
  }

  /** The first reply starts the read with the last id, the second loses the other. */
  lemma LastIdThenNone(p: Parent)
    requires Last(p)
    ensures var r := Handle(Handle(p, Answering(p.active.id)), Answering(MAX_SAFE));
      r.disposed && r.nextId > PAST_IDS && |r.lost| == 1
  {
    var q := LastIdStarts(p);
    NoIdIsLeft(q);
  }

  lemma LastIdStarts(p: Parent) returns (q: Parent)
    requires Last(p)
    ensures q == Handle(p, Answering(p.active.id)) && Spent(q)
  {
    var m := Answering(p.active.id).message;
    assert Received(p, m).AnswersRead?;
    var f := FreeActive(p, SlotOutcome(p, p.active, m), p.applied);
    HoverIsChosen(f);
    AdmittedReadEncodes(1, MAX_SAFE, 0);
    assert f.queries == p.queries && Without(f.queries, 0) == f.queries[1..];
    q := Pump(f);
    assert q == StartRead(Taken(f), f.queries[0]);
  }

  /** The last id runs and one hover still waits. */
  predicate Spent(p: Parent) {
    && !p.disposed && p.failure.None? && p.edits == [] && p.detached.Idle? && p.applied == 0
    && p.active.Reading? && p.active.id == MAX_SAFE && p.active.revision == 0 && p.active.query.version == Some(1)
    && p.nextId == PAST_IDS && p.lost == [] && |p.queries| == 1 && Hovering(p.queries[0], p.generation)
  }

  lemma NoIdIsLeft(p: Parent)
    requires Spent(p)
    ensures var r := Handle(p, Answering(MAX_SAFE)); r.disposed && r.nextId > PAST_IDS && |r.lost| == 1
  {
    var m := Answering(MAX_SAFE).message;
    assert Received(p, m).AnswersRead?;
    var f := FreeActive(p, SlotOutcome(p, p.active, m), p.applied);
    HoverIsChosen(f);
    assert !Encodes(Taken(f), f.queries[0]);
    assert Pump(f) == StartRead(Taken(f), f.queries[0]) == Fail(Dropped(Taken(f), f.queries[0]), false);
  }

  lemma HoversWait(p: Parent, id: nat)
    requires Resting(p, id) && id == MAX_SAFE - 1 && p.lost == []
    ensures Last(Handle(Handle(Handle(p, ASK), ASK), ASK)) && Handle(Handle(Handle(p, ASK), ASK), ASK).active.id == id
  {
    HoverStarts(p, id);
    var r := Handle(p, ASK);
    HoverQueues(r);
    HoverQueues(Handle(r, ASK));
  }

  /** Some run uses up every id that encodes and then loses a read: admitted while one id
      was left, it is sent when none is, and neither the deadline nor anything later
      settles it. */
  lemma IdsCanRunOut() returns (es: seq<Event>)
    ensures var p := ParentLaws.Run(es, |es|);
      p.disposed && p.nextId > PAST_IDS && |p.lost| == 1
      && forall disposal :: Times(SettledHandles(Deadline(p, disposal).settled), p.lost[0].handle) == 0
  {
    es := IdsAreUsed(MAX_SAFE - 1);
    var p := ParentLaws.Run(es, |es|);
    OneOwnerInEveryRun(es, |es|);
    HoversWait(p, MAX_SAFE - 1);
    var first := p.nextId;
    RunExtends(es, ASK);
    RunExtends(es + [ASK], ASK);
    RunExtends(es + [ASK] + [ASK], ASK);
    es := es + [ASK] + [ASK] + [ASK];
    LastIdThenNone(ParentLaws.Run(es, |es|));
    RunExtends(es, Answering(first));
    RunExtends(es + [Answering(first)], Answering(MAX_SAFE));
    es := es + [Answering(first)] + [Answering(MAX_SAFE)];
    LostIsUnsettledAtDeadline(es);
  }

  lemma LostIsUnsettledAtDeadline(es: seq<Event>)
    requires ParentLaws.Run(es, |es|).lost != []
    ensures var p := ParentLaws.Run(es, |es|);
      forall disposal :: Times(SettledHandles(Deadline(p, disposal).settled), p.lost[0].handle) == 0
  {
    OneOwnerInEveryRun(es, |es|);
    var p := ParentLaws.Run(es, |es|);
    forall disposal ensures Times(SettledHandles(Deadline(p, disposal).settled), p.lost[0].handle) == 0 {
      LostStaysUnsettled(p, disposal);
    }
  }

  lemma LostStaysUnsettled(p: Parent, disposal: bool)
    requires Sound(p) && Exactly(p) && p.lost != []
    ensures Times(SettledHandles(Deadline(p, disposal).settled), p.lost[0].handle) == 0
  {
    var h := LostIsOwned(p);
    DeadlineKeepsLost(p, disposal);
    DeadlineOwners(p, disposal, h);
  }

  // ----- The last bytes of a message -----

  const PAGE: Uri := "file:///root/a.ets"
  const CONTROLS: nat := 1_398_083

  /** As many control characters, six bytes each on the wire, as fill a message. */
  function Filling(): (text: Utf16)
    ensures |text| == CONTROLS + 2
  {
    seq(CONTROLS + 2, i => if i < CONTROLS then 1 else 97)
  }

  const LIMIT: Mutation := Open(PAGE, 0, Filling())

  lemma {:induction false} FillingCosts(i: nat)
    requires i <= CONTROLS + 2
    ensures RawFrom(Filling(), i) == CONTROLS + 2 - i
    ensures WireFrom(Filling(), i) == if i <= CONTROLS then 6 * (CONTROLS - i) + 2 else CONTROLS + 2 - i
    decreases CONTROLS + 2 - i
  {
    if i < CONTROLS + 2 {
      FillingCosts(i + 1);
      var c := Filling()[i];
      assert c == (if i < CONTROLS then 1 else 97) && ItemAt(Filling(), i) == Scalar(c as int);
    }
  }

  lemma PageCosts(kind: string, text: Utf16)
    requires |kind| == 4 || |kind| == 6
    ensures var body := Versioned(kind, PAGE, 0) + [Field("text", WireBytes(text))];
      Sum(body, 4) == 61 + |kind| + WireBytes(text)
  {
    var body := Versioned(kind, PAGE, 0) + [Field("text", WireBytes(text))];
    assert Cost(body[0]) == 9 + |kind| && Cost(body[1]) == 26 && Cost(body[2]) == 19;
    assert Cost(body[3]) == 7 + WireBytes(text);
    assert Sum(body, 1) == Cost(body[0]) && Sum(body, 2) == Sum(body, 1) + Cost(body[1]);
    assert Sum(body, 3) == Sum(body, 2) + Cost(body[2]);
  }

  lemma PageBytes(m: Mutation, kind: string)
    requires (m.Open? || m.Change?) && m.uri == PAGE && m.version == 0 && kind == if m.Open? then "open" else "change"
    ensures EditBytes(m, 1) == 102 + |kind| + WireBytes(m.text)
  {
    PageCosts(kind, m.text);
    PrologueCosts(1);
    SumConcat(Prologue(1), Body(m), 4);
    assert |Prologue(1) + Body(m)| == 7;
  }

  /** An edit within every bound at admission that no longer encodes at revision 10. */
  lemma LimitEditOutgrowsEnvelope()
    ensures Transportable(LIMIT) && EditEncodes(LIMIT, 1) && !EditEncodes(LIMIT, 10)
  {
    FillingCosts(0);
    PageBytes(LIMIT, "open");
    assert EditBytes(LIMIT, 1) == MAX_MESSAGE_BYTES;
    AcceptedEditEncodes(LIMIT, 10);
  }

  // ----- The edit that outgrows its message -----

  /** Open and at rest after `n` edits. */
  predicate Quiescent(p: Parent, n: nat) {
    && !p.disposed && p.failure.None? && p.edits == [] && p.queries == [] && p.active.Idle? && p.detached.Idle?
    && p.applied == n
  }

  const SMALL: Mutation := Change(PAGE, 0, [])

  lemma SmallEncodes(revision: nat)
    requires 1 <= revision < 10
    ensures EditEncodes(SMALL, revision)
  {
    PageBytes(SMALL, "change");
    RevisionCosts(SMALL, revision);
  }

  /** A lone edit that encodes at admission is queued and at once taken up. */
  lemma LoneEditStarts(p: Parent, m: Mutation, n: nat)
    requires Quiescent(p, n) && !m.Workspace? && Transportable(m) && EditEncodes(m, 1)
    ensures Handle(p, Mutating(m, Sends)) == StartEdit(Accepted(p, m, Sends))
    ensures var a := Accepted(p, m, Sends);
      a.edits == [Edit(p.nextHandle, m, Sends)] && Quiescent(a.(edits := []), n)
  {
    assert Inputs(p.edits) == [] && Queued(p.edits, m, p.nextHandle, Sends) == [Edit(p.nextHandle, m, Sends)];
    var one := [Edit(p.nextHandle, m, Sends)];
    assert QueuedText(one, 0) == 0 && QueuedDocuments(one, 0) == 0;
    assert QueueFits(one);
  }

  lemma SmallEditPasses(p: Parent, n: nat)
    requires Quiescent(p, n) && n < 9
    ensures Quiescent(Handle(Handle(p, Mutating(SMALL, Sends)), Receiving(Ack(n + 1, 0))), n + 1)
  {
    SmallEncodes(1);
    SmallEncodes(n + 1);
    assert TextBytes(SMALL) == 0;
    LoneEditStarts(p, SMALL, n);
    SmallEditEnds(Handle(p, Mutating(SMALL, Sends)), n);
  }

  lemma SmallEditEnds(p: Parent, n: nat)
    requires p.active.Editing? && p.active.revision == n + 1 && Quiescent(p.(active := Idle), n)
    ensures Quiescent(Handle(p, Receiving(Ack(n + 1, 0))), n + 1)
  {
    assert Received(p, Ack(n + 1, 0)).AnswersEdit?;
    var f := FreeActive(p, Acknowledged, n + 1);
    assert Choice(f).index < 0;
  }

  lemma {:induction false} RevisionsAreUsed(n: nat) returns (es: seq<Event>)
    requires n <= 9
    ensures Quiescent(ParentLaws.Run(es, |es|), n)
  {
    if n == 0 {
      es := [];
    } else {
      es := RevisionsAreUsed(n - 1);
      SmallEditPasses(ParentLaws.Run(es, |es|), n - 1);
      var small, ack := Mutating(SMALL, Sends), Receiving(Ack(n, 0));
      RunExtendsTwice(es, small, ack);
      es := es + [small] + [ack];
    }
  }

  /** Some run accepts an edit and fails on it: it fills a message under revision 1, where it
      was checked, and not under revision 10, where it is sent. */
  lemma AcceptedEditCanFailSupervisor() returns (es: seq<Event>)
    ensures var p := ParentLaws.Run(es, |es|);
      p.accepted != [] && p.accepted[|p.accepted| - 1] == LIMIT && p.failure == Some(WorkerUnavailable)
  {
    es := RevisionsAreUsed(9);
    LimitEditFails(ParentLaws.Run(es, |es|), LIMIT);
    RunExtends(es, Mutating(LIMIT, Sends));
    es := es + [Mutating(LIMIT, Sends)];
  }

  lemma LimitEditFails(p: Parent, m: Mutation)
    requires Quiescent(p, 9) && m == LIMIT
    ensures var q := Handle(p, Mutating(m, Sends));
      q.accepted == p.accepted + [m] && q.failure == Some(WorkerUnavailable)
  {
    LimitEditOutgrowsEnvelope();
    OutgrownEditFails(p, m, 9, Accepted(p, m, Sends));
  }

  lemma OutgrownEditFails(p: Parent, m: Mutation, n: nat, a: Parent)
    requires Quiescent(p, n) && !m.Workspace? && Transportable(m)
    requires EditEncodes(m, 1) && !EditEncodes(m, n + 1) && a == Accepted(p, m, Sends)
    ensures var q := Handle(p, Mutating(m, Sends));
      q.accepted == p.accepted + [m] && q.failure == Some(WorkerUnavailable)
  {
    LoneEditStarts(p, m, n);
    UnsendableEditFails(a);
  }

  lemma UnsendableEditFails(p: Parent)
    requires p.edits != [] && p.failure.None? && !EditEncodes(p.edits[0].input, p.applied + 1)
    ensures StartEdit(p).failure == Some(WorkerUnavailable) && StartEdit(p).accepted == p.accepted
  {
  }
}
