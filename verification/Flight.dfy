/** Every message of the Worker is expected: each command sent holds a slot until answered. */
module Flight {
  // A command is in flight while it stands in the inbox, runs, or waits as a reply in the
  // channel. While the parent is open, what is in flight has a slot waiting for it.

  import opened Mutations
  import opened Lanes
  import opened Supervisor
  import opened ParentLaws
  import opened MessageLog
  import opened Protocol
  import PendingReads

  // ----- Slots -----

  predicate SlotAt(s: Slot, j: nat) { !s.Idle? && s.index == j }

  function One(b: bool): nat { if b then 1 else 0 }

  /** How many slots wait for the command at position `j`. */
  function Expected(p: Parent, j: nat): nat { One(SlotAt(p.active, j)) + One(SlotAt(p.detached, j)) }

  /** While open, a handler frees no slot, and every command it sends takes one. */
  ghost predicate Kept(p: Parent, q: Parent) {
    && (p.disposed ==> q.disposed)
    && (!q.disposed ==>
          && (!p.active.Idle? ==> q.active == p.active)
          && (!p.detached.Idle? ==> q.detached == p.detached)
          && |p.sent| <= |q.sent|
          && forall j: nat :: |p.sent| <= j < |q.sent| ==> Expected(q, j) > 0)
  }

  lemma KeptTwice(p: Parent, q: Parent, r: Parent)
    requires Kept(p, q) && Kept(q, r)
    ensures Kept(p, r)
  {
    if !r.disposed {
      forall j: nat | |p.sent| <= j < |r.sent| ensures Expected(r, j) > 0 {
        if j < |q.sent| { assert Expected(q, j) > 0; }
      }
    }
  }

  lemma FailDisposes(p: Parent)
    requires p.failure.Some? ==> p.disposed
    ensures Fail(p, false).disposed
  {
  }

  lemma StartEditKept(p: Parent)
    requires p.edits != [] && p.active.Idle? && !p.disposed && p.failure.None?
    ensures Kept(p, StartEdit(p))
  {
    FailDisposes(Begun(p));
  }

  lemma StartReadKept(p: Parent, q: Read)
    requires p.active.Idle? && !p.detached.Editing? && !p.disposed && p.failure.None?
    ensures Kept(p, StartRead(p, q))
  {
    FailDisposes(Dropped(p, q));
    FailDisposes(Placed(p, q));
  }

  lemma {:induction false} PumpKept(p: Parent)
    requires Sound(p)
    ensures Kept(p, Pump(p))
    decreases |p.queries|
  {
    if p.active.Idle? && !p.disposed {
      if p.edits != [] {
        StartEditKept(p);
      } else if Choice(p).index >= 0 {
        PumpReads(p);
        ChosenStarts(p);
        StartReadKept(Taken(p), p.queries[Choice(p).index]);
        PumpKept(Started(p));
        KeptTwice(p, Started(p), Pump(Started(p)));
      }
    }
  }

  lemma MutateKept(p: Parent, m: Mutation, fate: Fate)
    requires Sound(p)
    ensures Kept(p, Mutate(p, m, fate))
  {
    if !p.disposed && !(m.Workspace? && !FlagRules(m.batch)) {
      if !(!Transportable(m) || MergeRefused(p.edits, m) || !QueueFits(Queued(p.edits, m, p.nextHandle, fate))) {
        AcceptedSound(p, m, fate);
        PumpKept(Accepted(p, m, fate));
        KeptTwice(p, Accepted(p, m, fate), Pump(Accepted(p, m, fate)));
      }
    }
  }

  lemma RequestKept(p: Parent, q: Read)
    requires Sound(p) && q.handle == p.nextHandle && q.generation == p.generation
    ensures Kept(p, Request(p, q))
  {
    if !p.disposed && PendingReads.Admits(p.queries, q) {
      JoinedSound(p, q);
      PumpKept(Joined(p, q));
      KeptTwice(p, Joined(p, q), Pump(Joined(p, q)));
    }
  }

  lemma HandleKept(p: Parent, e: Event)
    requires Sound(p) && !e.Receiving?
    ensures Kept(p, Handle(p, e))
  {
    match e {
      case Mutating(m, fate) => MutateKept(p, m, fate);
      case Requesting(_, _, _, _, _, _) => RequestKept(p, NewRead(p, e));
      case _ =>
    }
  }

  // ----- In flight -----

  function Replies(posted: seq<ToParent>, from: nat, n: nat, j: nat): nat
    requires from <= n <= |posted|
  {
    if n == from then 0 else Replies(posted, from, n - 1, j) + One(posted[n - 1].position == j)
  }

  function Behind(background: seq<Running>, n: nat, j: nat): nat
    requires n <= |background|
  {
    if n == 0 then 0 else Behind(background, n - 1, j) + One(background[n - 1].index == j)
  }

  function InFlight(w: Worker, delivered: nat, j: nat): nat
    requires delivered <= |w.posted|
  {
    One(w.received <= j) + One(w.current.Some? && w.current.value.index == j)
    + Behind(w.background, |w.background|, j) + Replies(w.posted, delivered, |w.posted|, j)
  }

  ghost predicate Awaited(p: Parent, w: Worker, delivered: nat) {
    && delivered <= |w.posted|
    && (!p.disposed ==> forall j: nat :: j < |p.sent| ==> InFlight(w, delivered, j) <= Expected(p, j))
  }

  lemma {:induction false} RepliesPrefix(a: seq<ToParent>, m: ToParent, from: nat, n: nat, j: nat)
    requires from <= n <= |a|
    ensures Replies(a + [m], from, n, j) == Replies(a, from, n, j)
  {
    if n > from { RepliesPrefix(a, m, from, n - 1, j); }
  }

  lemma RepliesGrow(posted: seq<ToParent>, m: ToParent, from: nat, j: nat)
    requires from <= |posted|
    ensures Replies(posted + [m], from, |posted| + 1, j) == Replies(posted, from, |posted|, j) + One(m.position == j)
  {
    RepliesPrefix(posted, m, from, |posted|, j);
  }

  lemma {:induction false} ReplyDelivered(posted: seq<ToParent>, from: nat, n: nat, j: nat)
    requires from < n <= |posted|
    ensures Replies(posted, from, n, j) == Replies(posted, from + 1, n, j) + One(posted[from].position == j)
  {
    if n > from + 1 { ReplyDelivered(posted, from, n - 1, j); }
  }

  lemma {:induction false} BehindPrefix(a: seq<Running>, b: seq<Running>, n: nat, j: nat)
    requires n <= |a| && n <= |b| && forall i :: 0 <= i < n ==> a[i] == b[i]
    ensures Behind(a, n, j) == Behind(b, n, j)
  {
    if n > 0 { BehindPrefix(a, b, n - 1, j); }
  }

  lemma {:induction false} BehindWithout(a: seq<Running>, which: nat, n: nat, j: nat)
    requires which < n <= |a|
    ensures |a[..which] + a[which + 1..]| == |a| - 1
    ensures Behind(a[..which] + a[which + 1..], n - 1, j) + One(a[which].index == j) == Behind(a, n, j)
  {
    var rest := a[..which] + a[which + 1..];
    if n == which + 1 {
      BehindPrefix(a, rest, which, j);
    } else {
      BehindWithout(a, which, n - 1, j);
      assert rest[n - 2] == a[n - 1];
    }
  }

  // ----- The Worker's steps -----

  lemma EditFlies(w: Worker, m: ToWorker, delivered: nat, j: nat)
    requires delivered <= |w.posted| && m.EditMessage?
    ensures delivered <= |TakeEdit(w, m).posted| && InFlight(TakeEdit(w, m), delivered, j) <= InFlight(w, delivered, j)
  {
    RepliesGrow(w.posted, Ack(m.revision, w.received), delivered, j);
  }

  lemma RefusalFlies(w: Worker, m: ToWorker, code: Code, delivered: nat, j: nat)
    requires delivered <= |w.posted| && m.ReadMessage?
    ensures var posted := w.posted + [Reply(m, Failure(code), w.received)];
      Replies(posted, delivered, |posted|, j) == Replies(w.posted, delivered, |w.posted|, j) + One(w.received == j)
  {
    RepliesGrow(w.posted, Reply(m, Failure(code), w.received), delivered, j);
  }

  lemma ReadFlies(w: Worker, m: ToWorker, delivered: nat, j: nat)
    requires delivered <= |w.posted| && m.ReadMessage? && w.current.None?
    ensures delivered <= |TakeRead(w, m).posted| && InFlight(TakeRead(w, m), delivered, j) <= InFlight(w, delivered, j)
  {
    if w.quarantined || w.revision != m.revision {
      RefusalFlies(w, m, RestartRequired, delivered, j);
    } else if !Answerable(m.query, w.knowledge.documents) {
      RefusalFlies(w, m, ContentModifiedError, delivered, j);
    } else {
      BehindPrefix(w.background, w.background + [Running(w.received, w.knowledge)], |w.background|, j);
    }
  }

  /** The Worker moves commands along but never doubles one. */
  lemma TakeFlies(w: Worker, sent: seq<ToWorker>, delivered: nat, j: nat)
    requires delivered <= |w.posted|
    ensures delivered <= |TakeMessage(w, sent).posted|
    ensures InFlight(TakeMessage(w, sent), delivered, j) <= InFlight(w, delivered, j)
  {
    if !w.dead && w.current.None? && w.received < |sent| {
      if sent[w.received].EditMessage? {
        EditFlies(w, sent[w.received], delivered, j);
      } else {
        ReadFlies(w, sent[w.received], delivered, j);
      }
    }
  }

  lemma AnswerFlies(w: Worker, sent: seq<ToWorker>, r: Running, ok: bool, code: Code, delivered: nat, j: nat)
    requires delivered <= |w.posted|
    ensures var after := Answered(w, sent, r, ok, code);
      && delivered <= |after|
      && Replies(after, delivered, |after|, j) <= Replies(w.posted, delivered, |w.posted|, j) + One(r.index == j)
  {
    if r.index < |sent| && sent[r.index].ReadMessage? {
      var answer := if ok then Success(r.start, w.knowledge, w.synced) else Failure(code);
      RepliesGrow(w.posted, Reply(sent[r.index], answer, r.index), delivered, j);
    }
  }

  lemma FinishFlies(w: Worker, sent: seq<ToWorker>, which: nat, ok: bool, code: Code, delivered: nat, j: nat)
    requires delivered <= |w.posted|
    ensures var a, b := FinishCurrent(w, sent, ok, code), FinishBackground(w, sent, which, ok, code);
      && delivered <= |a.posted| && InFlight(a, delivered, j) <= InFlight(w, delivered, j)
      && delivered <= |b.posted| && InFlight(b, delivered, j) <= InFlight(w, delivered, j)
  {
    if w.current.Some? { AnswerFlies(w, sent, w.current.value, ok, code, delivered, j); }
    if which < |w.background| {
      AnswerFlies(w, sent, w.background[which], ok, code, delivered, j);
      BehindWithout(w.background, which, |w.background|, j);
    }
  }

  // ----- The parent's steps -----

  lemma {:induction false} NoReplyYet(sent: seq<ToWorker>, posted: seq<ToParent>, from: nat, n: nat, j: nat)
    requires from <= n <= |posted| && j >= |sent| && forall i :: 0 <= i < |posted| ==> Truthful(sent, posted[i])
    ensures Replies(posted, from, n, j) == 0
  {
    if n > from { NoReplyYet(sent, posted, from, n - 1, j); }
  }

  lemma {:induction false} NotBehindYet(sent: seq<ToWorker>, background: seq<Running>, upto: nat, n: nat, j: nat)
    requires n <= |background| && j >= |sent|
    requires forall i :: 0 <= i < |background| ==> Rightly(sent, background[i], upto)
    ensures Behind(background, n, j) == 0
  {
    if n > 0 { NotBehindYet(sent, background, upto, n - 1, j); }
  }

  /** A command not yet sent is at most about to be. */
  lemma NewFlight(sent: seq<ToWorker>, w: Worker, delivered: nat, j: nat)
    requires Honest(sent, w) && delivered <= |w.posted| && j >= |sent|
    ensures InFlight(w, delivered, j) <= 1
  {
    NoReplyYet(sent, w.posted, delivered, |w.posted|, j);
    NotBehindYet(sent, w.background, w.synced, |w.background|, j);
  }

  lemma KeptAwaits(p: Parent, q: Parent, w: Worker, delivered: nat)
    requires Kept(p, q) && Awaited(p, w, delivered) && Honest(p.sent, w)
    ensures Awaited(q, w, delivered)
  {
    if !q.disposed {
      forall j: nat | j < |q.sent| ensures InFlight(w, delivered, j) <= Expected(q, j) {
        if j >= |p.sent| { NewFlight(p.sent, w, delivered, j); }
      }
    }
  }

  // ----- Delivery -----

  predicate Answers(r: Reception) { r.AnswersEdit? || r.AnswersRead? || r.AnswersDetached? }

  /** The slot a reception frees. */
  function FreedSlot(p: Parent, r: Reception): Slot { if r.AnswersDetached? then p.detached else p.active }

  lemma SameId(p: Parent, j: nat, k: nat)
    requires Numbered(p) && j < |p.sent| && k < |p.sent| && p.sent[j].ReadMessage? && p.sent[k].ReadMessage?
    requires p.sent[j].id == p.sent[k].id
    ensures j == k
  {
  }

  /** A true message about a command that has a slot answers that command. */
  lemma SlotIsAnswered(p: Parent, m: ToParent)
    requires Sound(p) && Logged(p) && !p.disposed && Truthful(p.sent, m) && Expected(p, m.position) > 0
    ensures Answers(Received(p, m)) && SlotAt(FreedSlot(p, Received(p, m)), m.position)
  {
    assert Filed(p, p.active) && Filed(p, p.detached);
    if m.Response? {
      if p.detached.Reading? && m.id == p.detached.id { SameId(p, p.detached.index, m.position); }
      if p.active.Reading? && m.id == p.active.id { SameId(p, p.active.index, m.position); }
    }
  }

  function Freed(p: Parent, m: ToParent): Parent {
    match Received(p, m)
    case AnswersEdit => FreeActive(p, Acknowledged, p.active.revision)
    case AnswersRead => FreeActive(p, SlotOutcome(p, p.active, m), p.applied)
    case AnswersDetached => FreeDetached(p, SlotOutcome(p, p.detached, m))
    case _ => p
  }

  lemma FreedSound(p: Parent, m: ToParent)
    requires Sound(p) && Answers(Received(p, m))
    ensures Sound(Freed(p, m)) && Receive(p, m) == Pump(Freed(p, m)) && Freed(p, m).sent == p.sent
    ensures Freed(p, m).disposed == p.disposed
  {
    match Received(p, m)
    case AnswersEdit => FreeActiveSound(p, Acknowledged, p.active.revision);
    case AnswersRead => FreeActiveSound(p, SlotOutcome(p, p.active, m), p.applied);
    case AnswersDetached => FreeDetachedSound(p, SlotOutcome(p, p.detached, m));
    case _ =>
  }

  /** The next reply of the channel answers a slot. */
  lemma NextIsAnswered(p: Parent, w: Worker, d: nat)
    requires Sound(p) && Logged(p) && Honest(p.sent, w) && Awaited(p, w, d) && d < |w.posted| && !p.disposed
    ensures var m := w.posted[d]; Answers(Received(p, m)) && SlotAt(FreedSlot(p, Received(p, m)), m.position)
  {
    var m := w.posted[d];
    assert Truthful(p.sent, m);
    ReplyDelivered(w.posted, d, |w.posted|, m.position);
    assert InFlight(w, d, m.position) <= Expected(p, m.position);
    SlotIsAnswered(p, m);
  }

  lemma FreedAwaits(p: Parent, w: Worker, d: nat, m: ToParent, q: Parent)
    requires Awaited(p, w, d) && d < |w.posted| && !p.disposed && m == w.posted[d]
    requires Answers(Received(p, m)) && SlotAt(FreedSlot(p, Received(p, m)), m.position)
    requires q == Freed(p, m) && q.sent == p.sent
    ensures Awaited(q, w, d + 1)
  {
    var after := d + 1;
    forall j: nat | j < |q.sent| ensures InFlight(w, after, j) <= Expected(q, j) {
      FreedExpects(p, m, j);
      ReplyDelivered(w.posted, d, |w.posted|, j);
    }
  }

  lemma FreedExpects(p: Parent, m: ToParent, j: nat)
    requires Answers(Received(p, m)) && SlotAt(FreedSlot(p, Received(p, m)), m.position)
    ensures Expected(Freed(p, m), j) + One(j == m.position) == Expected(p, j)
  {
  }

  ghost predicate Waits(s: System) { Awaited(s.p, s.w, s.delivered) }

  lemma DeliverWaits(s: System, m: ToParent, after: System)
    requires Inv(s) && Waits(s) && s.delivered < |s.w.posted| && m == s.w.posted[s.delivered]
    requires after.w == s.w && after.delivered == s.delivered + 1 && after.p == Receive(s.p, m)
    ensures Waits(after)
  {
    MessageWaits(s.p, s.w, s.delivered, m, after.p);
  }

  lemma MessageWaits(p: Parent, w: Worker, d: nat, m: ToParent, q: Parent)
    requires Sound(p) && Logged(p) && Honest(p.sent, w) && Awaited(p, w, d)
    requires d < |w.posted| && m == w.posted[d] && q == Receive(p, m)
    ensures Awaited(q, w, d + 1)
  {
    if p.disposed { DisposedWaits(p, w, d, m, q); } else { ReplyWaits(p, w, d, m, q); }
  }

  lemma DisposedWaits(p: Parent, w: Worker, d: nat, m: ToParent, q: Parent)
    requires Awaited(p, w, d) && p.disposed && d < |w.posted| && q == Receive(p, m)
    ensures Awaited(q, w, d + 1)
  {
    DisposedStays(p, m);
  }

  lemma ReplyWaits(p: Parent, w: Worker, d: nat, m: ToParent, q: Parent)
    requires Sound(p) && Logged(p) && Honest(p.sent, w) && Awaited(p, w, d) && !p.disposed
    requires d < |w.posted| && m == w.posted[d] && q == Receive(p, m)
    ensures Awaited(q, w, d + 1)
  {
    NextIsAnswered(p, w, d);
    FreedSound(p, m);
    FreedReplyWaits(p, w, d, m, Freed(p, m), q);
  }

  lemma FreedReplyWaits(p: Parent, w: Worker, d: nat, m: ToParent, freed: Parent, q: Parent)
    requires Honest(p.sent, w) && Awaited(p, w, d) && !p.disposed && d < |w.posted| && m == w.posted[d]
    requires Answers(Received(p, m)) && SlotAt(FreedSlot(p, Received(p, m)), m.position)
    requires Sound(freed) && freed == Freed(p, m) && freed.sent == p.sent && q == Pump(freed)
    ensures Awaited(q, w, d + 1)
  {
    FreedAwaits(p, w, d, m, freed);
    PumpAwaits(freed, w, d + 1, q);
  }

  lemma PumpAwaits(p: Parent, w: Worker, delivered: nat, q: Parent)
    requires Sound(p) && Honest(p.sent, w) && Awaited(p, w, delivered) && q == Pump(p)
    ensures Awaited(q, w, delivered)
  {
    PumpKept(p);
    KeptAwaits(p, q, w, delivered);
  }

  lemma DisposedStays(p: Parent, m: ToParent)
    requires p.disposed
    ensures Receive(p, m).disposed
  {
  }

  // ----- Every run -----

  lemma WorkerWaits(s: System, t: Turn)
    requires Waits(s) && (t.WorkerTakes? || t.WorkerAnswers? || t.BackgroundAnswers?)
    ensures Waits(Turned(s, t))
  {
    var w := Turned(s, t).w;
    FliesOn(s, t, 0);
    forall j: nat | j < |s.p.sent|
      ensures InFlight(w, s.delivered, j) <= InFlight(s.w, s.delivered, j)
    {
      FliesOn(s, t, j);
    }
  }

  lemma FliesOn(s: System, t: Turn, j: nat)
    requires s.delivered <= |s.w.posted| && (t.WorkerTakes? || t.WorkerAnswers? || t.BackgroundAnswers?)
    ensures s.delivered <= |Turned(s, t).w.posted|
    ensures InFlight(Turned(s, t).w, s.delivered, j) <= InFlight(s.w, s.delivered, j)
  {
    match t {
      case WorkerTakes => TakeFlies(s.w, s.p.sent, s.delivered, j);
      case WorkerAnswers(ok, code) => FinishFlies(s.w, s.p.sent, 0, ok, code, s.delivered, j);
      case BackgroundAnswers(which, ok, code) => FinishFlies(s.w, s.p.sent, which, ok, code, s.delivered, j);
    }
  }

  lemma ParentWaits(s: System, e: Event)
    requires Inv(s) && Waits(s) && !e.Receiving?
    ensures Waits(Turned(s, ParentTurn(e)))
  {
    HandleKept(s.p, e);
    KeptAwaits(s.p, Handle(s.p, e), s.w, s.delivered);
  }

  lemma QuarantineWaits(s: System)
    requires Waits(s)
    ensures Waits(Turned(s, Quarantine))
  {
    forall j: nat | j < |s.p.sent|
      ensures InFlight(s.w.(quarantined := true), s.delivered, j) == InFlight(s.w, s.delivered, j) {}
  }

  lemma TurnWaits(s: System, t: Turn)
    requires Inv(s) && Waits(s)
    ensures Waits(Turned(s, t))
  {
    if t.ParentTurn? {
      if !t.e.Receiving? { ParentWaits(s, t.e); }
    } else if t.Deliver? {
      if s.delivered < |s.w.posted| {
        var m := s.w.posted[s.delivered];
        DeliverWaits(s, m, Turned(s, t));
      }
    } else if t.Quarantine? {
      QuarantineWaits(s);
    } else {
      WorkerWaits(s, t);
    }
  }

  lemma {:induction false} AwaitedInEveryRun(ts: seq<Turn>, n: nat)
    requires n <= |ts|
    ensures Waits(Play(ts, n))
  {
    if n > 0 {
      AwaitedInEveryRun(ts, n - 1);
      InvInEveryRun(ts, n - 1);
      TurnWaits(Play(ts, n - 1), ts[n - 1]);
    }
  }

  /** In every run, an open parent never receives a message it does not expect: each message
      answers the command in one of its slots, so the protocol never fails by itself. */
  lemma EveryMessageIsExpected(ts: seq<Turn>, n: nat)
    requires n <= |ts|
    ensures var s := Play(ts, n);
      !s.p.disposed && s.delivered < |s.w.posted| ==>
        var r := Received(s.p, s.w.posted[s.delivered]);
        Answers(r) && SlotAt(FreedSlot(s.p, r), s.w.posted[s.delivered].position)
  {
    var s := Play(ts, n);
    AwaitedInEveryRun(ts, n);
    InvInEveryRun(ts, n);
    if !s.p.disposed && s.delivered < |s.w.posted| { NextIsAnswered(s.p, s.w, s.delivered); }
  }

  /** In every run, the Worker never meets a gap in the revisions. */
  lemma {:induction false} WorkerNeverDies(ts: seq<Turn>, n: nat)
    requires n <= |ts|
    ensures !Play(ts, n).w.dead
  {
    if n > 0 {
      WorkerNeverDies(ts, n - 1);
      InvInEveryRun(ts, n - 1);
      if ts[n - 1].WorkerTakes? { TakesHonest(Play(ts, n - 1)); }
    }
  }
}
