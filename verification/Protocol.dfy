/** Parent and Worker together. */
module Protocol {
  // Every published answer is fresh, in every run.
  //
  // The channel to the Worker is the parent's log read from `received` on; the channel
  // back is the Worker's log read from `delivered` on. The Worker answers one read at a
  // time, except that `references` runs in the background and may overlap anything.

  import opened Options
  import opened Mutations
  import opened Lanes
  import opened Supervisor
  import opened ParentLaws
  import opened MessageLog
  import opened Growth

  /** A read the Worker has started, by its position in the parent's log. */
  datatype Running = Running(index: nat, start: Knowledge)

  /** `synced` is the position up to which edits are applied; a quarantined Worker drops
      edits, a dead one does nothing more. */
  datatype Worker = Worker(received: nat, synced: nat, knowledge: Knowledge, revision: nat,
                           current: Option<Running>, background: seq<Running>,
                           quarantined: bool, dead: bool, posted: seq<ToParent>)

  const Fresh := Worker(0, 0, Nothing, 0, None, [], false, false, [])

  /** The document a read names must be there, at the version the client asked about. */
  predicate Answerable(q: Read, documents: map<Uri, Document>) {
    if q.op == SemanticReadiness then q.version.None?
    else if q.disk then q.uri !in documents && (q.version.None? || q.version.value == 0)
    else q.uri in documents && (q.version.None? || q.version.value == documents[q.uri].version)
  }

  function Reply(m: ToWorker, a: Answer, position: nat): ToParent
    requires m.ReadMessage?
  {
    Response(m.id, m.revision, m.query.version, a, position)
  }

  /** The next message of the inbox, once the current read is answered. */
  function TakeMessage(w: Worker, sent: seq<ToWorker>): Worker {
    if w.dead || w.current.Some? || w.received >= |sent| then w
    else if sent[w.received].EditMessage? then TakeEdit(w, sent[w.received])
    else TakeRead(w, sent[w.received])
  }

  function TakeEdit(w: Worker, m: ToWorker): Worker
    requires m.EditMessage?
  {
    if w.quarantined then w.(received := w.received + 1)
    else if m.revision != w.revision + 1 then w.(dead := true)
    else w.(received := w.received + 1, synced := w.received + 1, knowledge := Apply(m.input, w.knowledge),
            revision := m.revision, posted := w.posted + [Ack(m.revision, w.received)])
  }

  function TakeRead(w: Worker, m: ToWorker): Worker
    requires m.ReadMessage?
  {
    var next := w.(received := w.received + 1, synced := if w.quarantined then w.synced else w.received + 1);
    if w.quarantined || w.revision != m.revision then
      next.(posted := w.posted + [Reply(m, Failure(RestartRequired), w.received)])
    else if !Answerable(m.query, w.knowledge.documents) then
      next.(posted := w.posted + [Reply(m, Failure(ContentModifiedError), w.received)])
    else if m.query.op == References then next.(background := w.background + [Running(w.received, w.knowledge)])
    else next.(current := Some(Running(w.received, w.knowledge)))
  }

  /** A started read is answered: with a value computed since its start, or an error. */
  function Answered(w: Worker, sent: seq<ToWorker>, r: Running, ok: bool, code: Code): seq<ToParent> {
    if r.index < |sent| && sent[r.index].ReadMessage? then
      w.posted + [Reply(sent[r.index], if ok then Success(r.start, w.knowledge, w.synced) else Failure(code), r.index)]
    else w.posted
  }

  function FinishCurrent(w: Worker, sent: seq<ToWorker>, ok: bool, code: Code): Worker {
    if w.dead || w.current.None? then w
    else w.(current := None, posted := Answered(w, sent, w.current.value, ok, code))
  }

  function FinishBackground(w: Worker, sent: seq<ToWorker>, which: nat, ok: bool, code: Code): Worker {
    if w.dead || which >= |w.background| then w
    else w.(background := w.background[..which] + w.background[which + 1..],
            posted := Answered(w, sent, w.background[which], ok, code))
  }

  // ----- The Worker's invariant -----

  ghost predicate Rightly(sent: seq<ToWorker>, r: Running, upto: nat) {
    && r.index < upto <= |sent| && sent[r.index].ReadMessage?
    && r.start == Knows(sent, r.index) && Answerable(sent[r.index].query, r.start.documents)
  }

  /** A message answers the command at its position, and a successful answer tells the
      truth about when it started and when it was given. */
  ghost predicate Truthful(sent: seq<ToWorker>, m: ToParent) {
    && m.position < |sent|
    && (m.Ack? ==> sent[m.position].EditMessage? && sent[m.position].revision == m.revision)
    && (m.Response? ==>
          && sent[m.position].ReadMessage? && sent[m.position].id == m.id
          && sent[m.position].revision == m.revision && sent[m.position].query.version == m.version)
    && (m.Response? && m.answer.Success? ==>
          && m.position < m.answer.until <= |sent|
          && m.answer.start == Knows(sent, m.position) && m.answer.finish == Knows(sent, m.answer.until)
          && Answerable(sent[m.position].query, m.answer.start.documents))
  }

  ghost predicate InStep(sent: seq<ToWorker>, w: Worker) {
    && w.synced <= w.received <= |sent| && (!w.quarantined ==> w.synced == w.received)
    && w.knowledge == Knows(sent, w.synced) && w.revision == EditCount(sent, w.synced)
  }

  ghost predicate Honest(sent: seq<ToWorker>, w: Worker) {
    && InStep(sent, w)
    && (w.current.Some? ==> Rightly(sent, w.current.value, w.synced))
    && (forall i :: 0 <= i < |w.background| ==> Rightly(sent, w.background[i], w.synced))
    && (forall i :: 0 <= i < |w.posted| ==> Truthful(sent, w.posted[i]))
  }

  /** The log only grows, so what was true of it stays true. */
  lemma HonestLater(sent: seq<ToWorker>, more: seq<ToWorker>, w: Worker)
    requires Honest(sent, w) && sent <= more
    ensures Honest(more, w)
  {
    forall n | 0 <= n <= |sent|
      ensures Knows(more, n) == Knows(sent, n) && EditCount(more, n) == EditCount(sent, n)
    {
      PrefixSays(sent, more, n);
    }
  }

  lemma TakeEditHonest(sent: seq<ToWorker>, w: Worker)
    requires Honest(sent, w) && w.received < |sent| && sent[w.received].EditMessage? && w.current.None?
    requires sent[w.received].revision == EditCount(sent, w.received) + 1
    ensures Honest(sent, TakeEdit(w, sent[w.received])) && !TakeEdit(w, sent[w.received]).dead == !w.dead
  {
  }

  /** A read that is not started is refused: as needing a restart by a quarantined Worker or
      at another revision than the log's, as modified content when the document it names is
      not there at its version. Otherwise it starts on what the log has said so far. */
  predicate ReadTaken(w: Worker, m: ToWorker, t: Worker, known: Knowledge, edits: nat)
    requires m.ReadMessage?
  {
    if w.quarantined || m.revision != edits then
      t.posted == w.posted + [Reply(m, Failure(RestartRequired), w.received)]
      && t.current == w.current && t.background == w.background
    else if !Answerable(m.query, known.documents) then
      t.posted == w.posted + [Reply(m, Failure(ContentModifiedError), w.received)]
      && t.current == w.current && t.background == w.background
    else
      && t.posted == w.posted
      && t.current == (if m.query.op == References then w.current else Some(Running(w.received, known)))
      && t.background == w.background + if m.query.op == References then [Running(w.received, known)] else []
  }

  lemma TakeReadKeeps(sent: seq<ToWorker>, w: Worker)
    requires Honest(sent, w) && w.received < |sent| && sent[w.received].ReadMessage? && w.current.None?
    ensures Honest(sent, TakeRead(w, sent[w.received]))
  {
  }

  lemma TakeReadAnswers(w: Worker, m: ToWorker, known: Knowledge, edits: nat)
    requires m.ReadMessage? && w.current.None?
    requires !w.quarantined ==> w.knowledge == known && w.revision == edits
    ensures ReadTaken(w, m, TakeRead(w, m), known, edits)
  {
  }

  lemma TakeReadHonest(sent: seq<ToWorker>, w: Worker)
    requires Honest(sent, w) && w.received < |sent| && sent[w.received].ReadMessage? && w.current.None?
    ensures Honest(sent, TakeRead(w, sent[w.received]))
    ensures ReadTaken(w, sent[w.received], TakeRead(w, sent[w.received]),
                      Knows(sent, w.received), EditCount(sent, w.received))
  {
    TakeReadKeeps(sent, w);
    TakeReadAnswers(w, sent[w.received], Knows(sent, w.received), EditCount(sent, w.received));
  }

  lemma AnsweredHonest(sent: seq<ToWorker>, w: Worker, r: Running, ok: bool, code: Code)
    requires Honest(sent, w) && Rightly(sent, r, w.synced)
    ensures forall i :: 0 <= i < |Answered(w, sent, r, ok, code)| ==> Truthful(sent, Answered(w, sent, r, ok, code)[i])
  {
  }

  lemma FinishHonest(sent: seq<ToWorker>, w: Worker, which: nat, ok: bool, code: Code)
    requires Honest(sent, w)
    ensures Honest(sent, FinishCurrent(w, sent, ok, code))
    ensures Honest(sent, FinishBackground(w, sent, which, ok, code))
  {
    if w.current.Some? {
      AnsweredHonest(sent, w, w.current.value, ok, code);
    }
    if which < |w.background| {
      AnsweredHonest(sent, w, w.background[which], ok, code);
    }
  }

  // ----- The system -----

  datatype System = System(p: Parent, w: Worker, delivered: nat)

  datatype Turn =
    | ParentTurn(e: Event)
    | Deliver
    | WorkerTakes
    | WorkerAnswers(ok: bool, code: Code)
    | BackgroundAnswers(which: nat, success: bool, error: Code)
    | Quarantine

  /** One atomic step of the parent, the channel or the Worker. The parent receives only
      what the Worker posted. */
  ghost function Turned(s: System, t: Turn): System {
    match t
    case ParentTurn(e) => if e.Receiving? then s else s.(p := Handle(s.p, e))
    case Deliver =>
      if s.delivered >= |s.w.posted| then s
      else s.(p := Receive(s.p, s.w.posted[s.delivered]), delivered := s.delivered + 1)
    case WorkerTakes => s.(w := TakeMessage(s.w, s.p.sent))
    case WorkerAnswers(ok, code) => s.(w := FinishCurrent(s.w, s.p.sent, ok, code))
    case BackgroundAnswers(which, ok, code) => s.(w := FinishBackground(s.w, s.p.sent, which, ok, code))
    case Quarantine => s.(w := s.w.(quarantined := true))
  }

  ghost function Play(ts: seq<Turn>, n: nat): System
    requires n <= |ts|
  {
    if n == 0 then System(Start, Fresh, 0) else Turned(Play(ts, n - 1), ts[n - 1])
  }

  ghost predicate Inv(s: System) {
    Sound(s.p) && Logged(s.p) && Honest(s.p.sent, s.w) && s.delivered <= |s.w.posted|
  }

  lemma TakesHonest(s: System)
    requires Inv(s)
    ensures Honest(s.p.sent, TakeMessage(s.w, s.p.sent))
    ensures TakeMessage(s.w, s.p.sent).dead == s.w.dead && |TakeMessage(s.w, s.p.sent).posted| >= |s.w.posted|
  {
    var w, sent := s.w, s.p.sent;
    if !w.dead && w.current.None? && w.received < |sent| {
      if sent[w.received].EditMessage? {
        TakeEditHonest(sent, w);
      } else {
        TakeReadHonest(sent, w);
      }
    }
  }

  lemma WorkerKeepsInv(s: System, t: Turn)
    requires Inv(s) && (t.WorkerTakes? || t.WorkerAnswers? || t.BackgroundAnswers?)
    ensures Inv(Turned(s, t))
  {
    match t {
      case WorkerTakes => TakesHonest(s);
      case WorkerAnswers(ok, code) => FinishHonest(s.p.sent, s.w, 0, ok, code);
      case BackgroundAnswers(which, ok, code) => FinishHonest(s.p.sent, s.w, which, ok, code);
    }
  }

  lemma ParentKeepsInv(s: System, e: Event)
    requires Inv(s)
    ensures Sound(Handle(s.p, e)) && Logged(Handle(s.p, e)) && Honest(Handle(s.p, e).sent, s.w)
  {
    HandleSound(s.p, e);
    HandleLogged(s.p, e);
    HandleGrows(s.p, e);
    HonestLater(s.p.sent, Handle(s.p, e).sent, s.w);
  }

  lemma ParentTurnKeepsInv(s: System, e: Event)
    requires Inv(s) && !e.Receiving?
    ensures Inv(Turned(s, ParentTurn(e)))
  {
    ParentKeepsInv(s, e);
  }

  lemma DeliverKeepsInv(s: System)
    requires Inv(s)
    ensures Inv(Turned(s, Deliver))
  {
    if s.delivered < |s.w.posted| {
      var m := s.w.posted[s.delivered];
      ParentKeepsInv(s, Receiving(m));
      assert Handle(s.p, Receiving(m)) == Receive(s.p, m);
    }
  }

  lemma TurnKeepsInv(s: System, t: Turn)
    requires Inv(s)
    ensures Inv(Turned(s, t))
  {
    if t.ParentTurn? {
      if !t.e.Receiving? { ParentTurnKeepsInv(s, t.e); }
    } else if t.Deliver? {
      DeliverKeepsInv(s);
    } else if !t.Quarantine? {
      WorkerKeepsInv(s, t);
    }
  }

  lemma {:induction false} InvInEveryRun(ts: seq<Turn>, n: nat)
    requires n <= |ts|
    ensures Inv(Play(ts, n))
  {
    if n == 0 {
      EmptyStart();
    } else {
      InvInEveryRun(ts, n - 1);
      TurnKeepsInv(Play(ts, n - 1), ts[n - 1]);
    }
  }

  // ----- Freshness -----

  /** The answer was given for a running read admitted after the last accepted mutation,
      and the Worker knew exactly what folding all accepted mutations gives, from the
      moment it started the read until it answered. */
  ghost predicate FreshAnswer(p: Parent, s: Slot, settled: Supervisor.Settlement) {
    && s.Reading? && settled.handle == s.query.handle && settled.outcome.Published?
    && s.query.generation == |p.accepted|
    && settled.outcome.start == settled.outcome.finish == Fold(p.accepted, Nothing)
    && Answerable(s.query, Fold(p.accepted, Nothing).documents)
  }

  lemma SlotAnswerFresh(p: Parent, s: Slot, m: ToParent)
    requires Sound(p) && Logged(p) && Truthful(p.sent, m)
    requires s == p.active || s == p.detached
    requires Unrevoked(p, s) && m.Response? && m.id == s.id && m.answer.Success?
    ensures FreshAnswer(p, s, Settled(s.query.handle, Published(m.answer.start, m.answer.finish)))
  {
    assert Current(p, s) && Filed(p, s) && Undisturbed(p, s);
    assert m.position == s.index;
    QuietKnows(p.sent, s.index, |p.sent|);
    QuietKnows(p.sent, s.index, m.answer.until);
    assert Inputs(p.edits) == [];
  }

  /** What a received message publishes, it publishes fresh. */
  lemma ReceivePublishesFresh(p: Parent, m: ToParent, i: nat)
    requires Sound(p) && Logged(p) && Truthful(p.sent, m)
    requires |p.settled| <= i < |Receive(p, m).settled| && Receive(p, m).settled[i].outcome.Published?
    ensures FreshAnswer(p, p.active, Receive(p, m).settled[i]) || FreshAnswer(p, p.detached, Receive(p, m).settled[i])
  {
    ReceiveGrows(p, m);
    SlotAnswerFresh(p, if Received(p, m).AnswersDetached? then p.detached else p.active, m);
  }

  /** In every run of parent and Worker, whenever a value is published it is fresh; this
      covers the detached `references` read, which may overlap other commands. */
  lemma PublishedAnswersAreFresh(ts: seq<Turn>, n: nat, i: nat)
    requires n < |ts|
    requires |Play(ts, n).p.settled| <= i < |Play(ts, n + 1).p.settled|
    requires Play(ts, n + 1).p.settled[i].outcome.Published?
    ensures var p, a := Play(ts, n).p, Play(ts, n + 1).p.settled[i];
      && (FreshAnswer(p, p.active, a) || FreshAnswer(p, p.detached, a))
      && Play(ts, n + 1).p.accepted == p.accepted
  {
    var s, t := Play(ts, n), ts[n];
    InvInEveryRun(ts, n);
    match t {
      case Deliver =>
        var m := s.w.posted[s.delivered];
        ReceivePublishesFresh(s.p, m, i);
        ReceiveGrows(s.p, m);
      case ParentTurn(e) =>
        HandleGrows(s.p, e);
        assert false;
      case _ => assert false;
    }
  }
}
