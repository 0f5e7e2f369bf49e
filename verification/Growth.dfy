/** The parent's logs only grow, and nothing but a received answer publishes a value: what a
    handler may add to the messages sent and to the settlements made. */
module Growth {
  import opened Options
  import opened Mutations
  import opened Lanes
  import opened Supervisor
  import opened ParentLaws

  /** From `p` to `q` the logs grew, and no value was published. */
  ghost predicate Quietly(p: Parent, q: Parent) {
    && p.sent <= q.sent && p.settled <= q.settled && p.lost <= q.lost && p.accepted <= q.accepted
    && (forall i :: |p.settled| <= i < |q.settled| ==> !q.settled[i].outcome.Published?)
  }

  lemma QuietlyTwice(p: Parent, q: Parent, r: Parent)
    requires Quietly(p, q) && Quietly(q, r)
    ensures Quietly(p, r)
  {
  }

  lemma SettleGrows(p: Parent, handle: nat, outcome: Outcome)
    requires !outcome.Published?
    ensures Quietly(p, Settle(p, handle, outcome))
  {
  }

  lemma RetireGrows(p: Parent, code: Code)
    ensures Quietly(p, Retire(p, code))
  {
  }

  lemma ActiveGrows(p: Parent, code: Code)
    ensures Quietly(p, SettleActive(p, code)) && SettleActive(p, code).accepted == p.accepted
  {
  }

  lemma DetachedGrows(p: Parent, code: Code)
    ensures Quietly(p, SettleDetached(p, code)) && SettleDetached(p, code).accepted == p.accepted
  {
  }

  lemma StrandedGrows(p: Parent, code: Code)
    ensures Quietly(p, SettleActive(p, code)) && Quietly(p, SettleDetached(p, code))
    ensures SettleActive(p, code).accepted == p.accepted && SettleDetached(p, code).accepted == p.accepted
  {
    ActiveGrows(p, code);
    DetachedGrows(p, code);
  }

  lemma FailGrows(p: Parent, terminal: bool)
    ensures Quietly(p, Fail(p, terminal)) && Fail(p, terminal).accepted == p.accepted
  {
    if p.failure.Some? {
      StrandedGrows(p, p.failure.value);
    } else {
      var q := Shutdown(p, WorkerUnavailable);
      RetireGrows(p.(failure := Some(WorkerUnavailable)), WorkerUnavailable);
      StrandedGrows(q, WorkerUnavailable);
      StrandedGrows(SettleActive(q, WorkerUnavailable), WorkerUnavailable);
      QuietlyTwice(q, SettleActive(q, WorkerUnavailable),
                   SettleDetached(SettleActive(q, WorkerUnavailable), WorkerUnavailable));
    }
  }

  lemma StartEditGrows(p: Parent)
    requires p.edits != []
    ensures Quietly(p, StartEdit(p)) && StartEdit(p).accepted == p.accepted
  {
    FailGrows(Begun(p), false);
  }

  lemma StartReadGrows(p: Parent, q: Read)
    ensures Quietly(p, StartRead(p, q)) && StartRead(p, q).accepted == p.accepted
  {
    if !Encodes(p, q) || (q.op == References && p.detached.Reading?) {
      FailGrows(Dropped(p, q), false);
    } else if !q.fate.Sends? {
      FailGrows(Placed(p, q), false);
    }
  }

  lemma {:induction false} PumpGrows(p: Parent)
    ensures Quietly(p, Pump(p)) && Pump(p).accepted == p.accepted
    decreases |p.queries|
  {
    if p.active.Idle? && !p.disposed {
      if p.edits != [] {
        StartEditGrows(p);
      } else if Choice(p).index >= 0 {
        var q := p.queries[Choice(p).index];
        TakenShrinks(p, q);
        if q.generation != p.generation {
          SettleGrows(Taken(p), q.handle, Rejected(ContentModifiedError));
          PumpGrows(Stale(Taken(p), q));
          QuietlyTwice(p, Stale(Taken(p), q), Pump(Stale(Taken(p), q)));
        } else {
          StartReadGrows(Taken(p), q);
          PumpGrows(StartRead(Taken(p), q));
          QuietlyTwice(p, StartRead(Taken(p), q), Pump(StartRead(Taken(p), q)));
        }
      }
    }
  }

  lemma MutateGrows(p: Parent, m: Mutation, fate: Fate)
    ensures Quietly(p, Mutate(p, m, fate))
  {
    RestartGrows(p);
    AcceptedThenGrows(p, m, fate, Accepted(p, m, fate));
  }

  lemma RestartGrows(p: Parent)
    ensures Quietly(p, RejectAndRestart(p))
  {
    var q := Settle(p, p.nextHandle, Rejected(RestartRequired)).(nextHandle := p.nextHandle + 1);
    RetireGrows(q.(failure := Some(RestartRequired)), RestartRequired);
  }

  lemma AcceptedThenGrows(p: Parent, m: Mutation, fate: Fate, q: Parent)
    requires q == Accepted(p, m, fate)
    ensures Quietly(p, Pump(q))
  {
    AcceptedGrows(p, m, fate);
    PumpGrows(q);
    QuietlyTwice(p, q, Pump(q));
  }

  lemma AcceptedGrows(p: Parent, m: Mutation, fate: Fate)
    ensures Quietly(p, Accepted(p, m, fate))
  {
  }

  /** A received message adds the settlement of the slot it answers; the rest is quiet. */
  lemma ReceiveGrows(p: Parent, m: ToParent)
    ensures var q := Receive(p, m);
      && p.sent <= q.sent && p.settled <= q.settled && p.lost <= q.lost && q.accepted == p.accepted
      && (forall i :: |p.settled| <= i < |q.settled| && q.settled[i].outcome.Published? ==>
            var s := if Received(p, m).AnswersDetached? then p.detached else p.active;
            && (Received(p, m).AnswersDetached? || Received(p, m).AnswersRead?)
            && q.settled[i] == Settled(s.query.handle, SlotOutcome(p, s, m)))
  {
    match Received(p, m) {
      case Ignored =>
      case Unexpected => FailGrows(p, false);
      case AnswersEdit => PumpGrows(FreeActive(p, Acknowledged, p.active.revision));
      case AnswersRead => PumpGrows(FreeActive(p, SlotOutcome(p, p.active, m), p.applied));
      case AnswersDetached => PumpGrows(FreeDetached(p, SlotOutcome(p, p.detached, m)));
    }
  }

  lemma DeadlineGrows(p: Parent, disposal: bool)
    ensures Quietly(p, Deadline(p, disposal))
  {
    if Due(p, disposal).Some? {
      var code := Due(p, disposal).value;
      StrandedGrows(p, code);
      StrandedGrows(SettleActive(p, code), code);
      QuietlyTwice(p, SettleActive(p, code), SettleDetached(SettleActive(p, code), code));
    }
  }

  lemma RequestGrows(p: Parent, q: Read)
    requires q.handle == p.nextHandle && q.generation == p.generation
    ensures Quietly(p, Request(p, q))
  {
    PumpGrows(Joined(p, q));
    SettleGrows(p, q.handle, Rejected(QueueOverflow));
  }

  lemma HandleGrows(p: Parent, e: Event)
    ensures p.sent <= Handle(p, e).sent && p.settled <= Handle(p, e).settled && p.lost <= Handle(p, e).lost
    ensures !e.Receiving? ==> Quietly(p, Handle(p, e))
  {
    match e {
      case Mutating(m, fate) => MutateGrows(p, m, fate);
      case Requesting(_, _, _, _, _, _) => RequestGrows(p, NewRead(p, e));
      case Cancelling(h, reason) =>
        if !reason.Active? {
          SettleGrows(p, h, Rejected(CancellationCode(CellOf(Cancel(p.cells, h, reason), h))));
        }
      case Disposing => RetireGrows(p.(closing := true), WorkerUnavailable);
      case DeadlinePasses(disposal) => DeadlineGrows(p, disposal);
      case EndpointFails => FailGrows(p, true);
      case Receiving(m) => ReceiveGrows(p, m);
    }
  }
}
