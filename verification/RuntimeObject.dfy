/** The Worker's side as an object: one inbox, one current read, `references` in the
    background. It is proved against the Worker's steps in `Protocol`. */
module RuntimeObject {
  import opened Options
  import opened Mutations
  import opened Lanes
  import opened Supervisor
  import opened Protocol

  class SemanticWorkerRuntime {
    var received: nat
    var knowledge: Knowledge
    var revision: nat
    var current: Option<Running>
    var background: seq<Running>
    var quarantined: bool
    var dead: bool
    var posted: seq<ToParent>
    ghost var synced: nat

    ghost function View(): Worker
      reads this
    {
      Worker(received, synced, knowledge, revision, current, background, quarantined, dead, posted)
    }

    constructor ()
      ensures View() == Protocol.Fresh
    {
      received, knowledge, revision, current, background := 0, Nothing, 0, None, [];
      quarantined, dead, posted, synced := false, false, [], 0;
    }

    /** Applies an edit and acknowledges it; a gap in the revisions ends the Worker. */
    method ApplyMutation(m: ToWorker)
      requires m.EditMessage?
      modifies this
      ensures View() == TakeEdit(old(View()), m)
    {
      if quarantined {
        received := received + 1;
        return;
      }
      if m.revision != revision + 1 {
        dead := true;
        return;
      }
      knowledge := Apply(m.input, knowledge);
      posted := posted + [Ack(m.revision, received)];
      revision := m.revision;
      received := received + 1;
      synced := received;
    }

    /** Starts a read on the revision it requires, or refuses it. */
    method AnswerRequest(m: ToWorker)
      requires m.ReadMessage?
      modifies this
      ensures View() == TakeRead(old(View()), m)
    {
      var position := received;
      received := received + 1;
      if !quarantined { synced := received; }
      if quarantined || revision != m.revision {
        posted := posted + [Reply(m, Failure(RestartRequired), position)];
      } else if !Answerable(m.query, knowledge.documents) {
        posted := posted + [Reply(m, Failure(ContentModifiedError), position)];
      } else if m.query.op == References {
        background := background + [Running(position, knowledge)];
      } else {
        current := Some(Running(position, knowledge));
      }
    }

    /** The next message of the inbox, once the current read is answered. */
    method Dispatch(inbox: seq<ToWorker>)
      modifies this
      ensures View() == TakeMessage(old(View()), inbox)
    {
      if dead || current.Some? || received >= |inbox| { return; }
      var m := inbox[received];
      if m.EditMessage? { ApplyMutation(m); } else { AnswerRequest(m); }
    }
  }
}
