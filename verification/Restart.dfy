/** Freshness across a restart. */
module Restart {
  // The recovery issues replayed opens, flushed edits and then later edits to the
  // supervisors of the new Worker. Each root's supervisor begins afresh, as in `Protocol`,
  // and accepts what is issued to it; what it publishes speaks of the parent's buffers.
  //
  // `owner` gives the workspace root of each document.

  import opened Options
  import opened Text
  import opened Mutations
  import opened Recycle
  import Protocol

  // ----- What is issued to the new Worker -----

  function Changed(s: State, uri: Uri, version: nat, text: Utf16): Mutation {
    if uri in s.parent then Change(uri, version, text) else Open(uri, version, text)
  }

  /** The mutation a supervisor of the new Worker is given in one step, if any. */
  function Given(owner: Uri -> Uri, s: State, e: Event): Option<Deferral> {
    match e
    case Resuming(_) =>
      if s.phase.Replaying? && s.phase.next < |s.phase.buffers| then
        var b := s.phase.buffers[s.phase.next];
        Some(Deferral(owner(b.uri), Open(b.uri, b.document.version, b.document.text)))
      else if s.phase.Flushing? && s.phase.next < |s.phase.batch| then Some(s.phase.batch[s.phase.next])
      else None
    case Syncing(root, uri, version, text) =>
      if Sends(s) && At(s.parent, uri) != Some(Document(version, text))
      then Some(Deferral(root, Changed(s, uri, version, text))) else None
    case Closing(root, uri) =>
      if Sends(s) && uri in s.parent then Some(Deferral(root, Close(uri, s.parent[uri].version))) else None
    case Notifying(root, batch) => if Sends(s) then Some(Deferral(root, Workspace(batch))) else None
    case Failing => None
  }

  predicate Sends(s: State) { s.phase.Recovered? && !s.failed }

  /** All that was issued since the old Worker was replaced. */
  function Issued(owner: Uri -> Uri, s: State, events: seq<Event>, n: nat): seq<Deferral>
    requires n <= |events|
  {
    if n == 0 then []
    else
      var g := Given(owner, Play(s, events, n - 1), events[n - 1]);
      Issued(owner, s, events, n - 1) + if g.Some? then [g.value] else []
  }

  lemma WriteAllAppends(ms: seq<Deferral>, d: Deferral, e: Documents)
    ensures WriteAll(ms + [d], |ms| + 1, e) == Write(d.mutation, WriteAll(ms, |ms|, e))
  {
    WriteAllPrefix(ms, ms + [d], |ms|, e);
  }

  lemma GivenIsWritten(owner: Uri -> Uri, s: State, e: Event, g: Option<Deferral>)
    requires g == Given(owner, s, e) && !s.phase.Replacing?
    ensures Handle(s, e).worker == if g.Some? then Write(g.value.mutation, s.worker) else s.worker
    ensures !Handle(s, e).phase.Replacing?
  {
    match e
    case Syncing(root, uri, version, text) =>
    case Resuming(_) =>
    case _ =>
  }

  lemma ReplacingGives(owner: Uri -> Uri, s: State, e: Event)
    requires s.phase.Replacing?
    ensures Given(owner, s, e).None?
    ensures !Handle(s, e).phase.Replacing? ==> Handle(s, e).worker == map[]
  {
  }

  /** The new Worker holds what was issued to it. */
  predicate Held(s: State, issued: seq<Deferral>) {
    if s.phase.Replacing? then issued == [] else s.worker == WriteAll(issued, |issued|, map[])
  }

  lemma StepHolds(owner: Uri -> Uri, s: State, e: Event, issued: seq<Deferral>, g: Option<Deferral>, t: State)
    requires Held(s, issued) && g == Given(owner, s, e) && t == Handle(s, e)
    ensures Held(t, issued + if g.Some? then [g.value] else [])
  {
    if s.phase.Replacing? {
      ReplacingGives(owner, s, e);
    } else {
      GivenIsWritten(owner, s, e, g);
      if g.Some? { WriteAllAppends(issued, g.value, map[]); } else { assert issued + [] == issued; }
    }
  }

  lemma {:induction false} IssuedIsHeld(owner: Uri -> Uri, s: State, events: seq<Event>, n: nat)
    requires n <= |events| && s.phase.Replacing?
    ensures Held(Play(s, events, n), Issued(owner, s, events, n))
  {
    if n > 0 {
      IssuedIsHeld(owner, s, events, n - 1);
      var before, g := Play(s, events, n - 1), Given(owner, Play(s, events, n - 1), events[n - 1]);
      StepHolds(owner, before, events[n - 1], Issued(owner, s, events, n - 1), g, Play(s, events, n));
    }
  }

  // ----- By root -----

  predicate RoutedAs(owner: Uri -> Uri, d: Deferral) {
    !d.mutation.Workspace? ==> d.root == owner(d.mutation.uri)
  }

  predicate Routed(owner: Uri -> Uri, ms: seq<Deferral>) {
    forall i :: 0 <= i < |ms| ==> RoutedAs(owner, ms[i])
  }

  /** The parent names the root that owns the document. */
  predicate Names(owner: Uri -> Uri, e: Event) {
    (e.Syncing? || e.Closing?) ==> e.root == owner(e.uri)
  }

  predicate AllNamed(owner: Uri -> Uri, events: seq<Event>) {
    forall i :: 0 <= i < |events| ==> Names(owner, events[i])
  }

  predicate Waiting(owner: Uri -> Uri, s: State) {
    Routed(owner, s.deferred) && (s.phase.Flushing? ==> Routed(owner, s.phase.batch))
  }

  lemma DeferredIsRouted(owner: Uri -> Uri, ms: seq<Deferral>, root: Uri, m: Mutation)
    requires Routed(owner, ms) && RoutedAs(owner, Deferral(root, m))
    ensures Routed(owner, Deferred(ms, root, m))
  {
    if Coalesces(ms, root, m) { assert RoutedAs(owner, ms[|ms| - 1]); }
  }

  lemma IssueIsRouted(owner: Uri -> Uri, s: State, root: Uri, m: Mutation)
    requires Waiting(owner, s) && RoutedAs(owner, Deferral(root, m))
    ensures Waiting(owner, Issue(s, root, m))
  {
    DeferredIsRouted(owner, s.deferred, root, m);
  }

  lemma HandleIsRouted(owner: Uri -> Uri, s: State, e: Event)
    requires Waiting(owner, s) && Names(owner, e)
    ensures Waiting(owner, Handle(s, e))
    ensures Given(owner, s, e).Some? ==> RoutedAs(owner, Given(owner, s, e).value)
  {
    match e
    case Syncing(root, uri, version, text) =>
      IssueIsRouted(owner, s.(parent := s.parent[uri := Document(version, text)]), root,
                    Changed(s, uri, version, text));
    case Closing(root, uri) =>
      if uri in s.parent {
        IssueIsRouted(owner, s.(parent := s.parent - {uri}), root, Close(uri, s.parent[uri].version));
      }
    case Notifying(root, batch) => IssueIsRouted(owner, s, root, Workspace(batch));
    case Resuming(_) =>
    case Failing =>
  }

  lemma {:induction false} IssuedIsRouted(owner: Uri -> Uri, s: State, events: seq<Event>, n: nat)
    requires n <= |events| && AllNamed(owner, events) && Waiting(owner, s)
    ensures Routed(owner, Issued(owner, s, events, n)) && Waiting(owner, Play(s, events, n))
  {
    if n > 0 {
      IssuedIsRouted(owner, s, events, n - 1);
      HandleIsRouted(owner, Play(s, events, n - 1), events[n - 1]);
    }
  }

  /** The mutations issued to one root. */
  function To(ms: seq<Deferral>, n: nat, root: Uri): seq<Mutation>
    requires n <= |ms|
  {
    if n == 0 then [] else To(ms, n - 1, root) + if ms[n - 1].root == root then [ms[n - 1].mutation] else []
  }

  /** The documents of one root. */
  function Owned(owner: Uri -> Uri, root: Uri, d: Documents): Documents {
    map uri | uri in d && owner(uri) == root :: d[uri]
  }

  lemma WriteOwned(owner: Uri -> Uri, root: Uri, m: Mutation, d: Documents)
    ensures Owned(owner, root, Write(m, d)) ==
      if m.Workspace? || owner(m.uri) != root then Owned(owner, root, d) else Write(m, Owned(owner, root, d))
  {
    var a := Owned(owner, root, Write(m, d));
    var b := if m.Workspace? || owner(m.uri) != root then Owned(owner, root, d) else Write(m, Owned(owner, root, d));
    forall uri ensures At(a, uri) == At(b, uri) {
      WriteAt(m, d, uri);
      WriteAt(m, Owned(owner, root, d), uri);
    }
    SameDocuments(a, b);
  }

  lemma FoldLast(ms: seq<Mutation>, m: Mutation)
    ensures Fold(ms + [m], Nothing) == Apply(m, Fold(ms, Nothing))
  {
    assert (ms + [m])[..|ms|] == ms;
  }

  lemma OwnedStep(owner: Uri -> Uri, root: Uri, d: Deferral, ms: seq<Mutation>, docs: Documents)
    requires RoutedAs(owner, d) && Fold(ms, Nothing).documents == Owned(owner, root, docs)
    ensures Fold(ms + if d.root == root then [d.mutation] else [], Nothing).documents
      == Owned(owner, root, Write(d.mutation, docs))
  {
    WriteOwned(owner, root, d.mutation, docs);
    if d.root == root {
      FoldLast(ms, d.mutation);
      WriteIsApply(d.mutation, Fold(ms, Nothing));
    } else {
      assert ms + [] == ms;
    }
  }

  /** Folding what is issued to a root gives the root's part of what the Worker holds. */
  lemma {:induction false} FoldIsOwned(owner: Uri -> Uri, root: Uri, ms: seq<Deferral>, n: nat)
    requires n <= |ms| && Routed(owner, ms)
    ensures Fold(To(ms, n, root), Nothing).documents == Owned(owner, root, WriteAll(ms, n, map[]))
  {
    if n > 0 {
      FoldIsOwned(owner, root, ms, n - 1);
      OwnedStep(owner, root, ms[n - 1], To(ms, n - 1, root), WriteAll(ms, n - 1, map[]));
    }
  }

  // ----- Authority lasts -----

  predicate InAuthority(s: State) { s.phase.Recovered? && s.worker == s.parent }

  lemma AuthorityStep(s: State, e: Event)
    requires InAuthority(s) && !Handle(s, e).failed
    ensures InAuthority(Handle(s, e)) && !s.failed
  {
    match e
    case Syncing(root, uri, version, text) =>
      if At(s.parent, uri) == Some(Document(version, text)) {
        assert s.parent[uri := Document(version, text)] == s.parent;
      }
    case _ =>
  }

  lemma FailureLasts(s: State, e: Event)
    ensures s.failed ==> Handle(s, e).failed
  {
  }

  lemma {:induction false} NeverFailed(s: State, events: seq<Event>, m: nat, n: nat)
    requires m <= n <= |events| && !Play(s, events, n).failed
    ensures !Play(s, events, m).failed
  {
    if m < n {
      FailureLasts(Play(s, events, n - 1), events[n - 1]);
      NeverFailed(s, events, m, n - 1);
    }
  }

  /** The recovery's caller resumed at step `m` after a gap whose edits change nothing. */
  ghost predicate ResumedIdle(s: State, events: seq<Event>, m: nat)
    requires m < |events|
  {
    var t := Play(s, events, m);
    t.phase.Emptied? && events[m].Resuming? && WriteAll(t.deferred, |t.deferred|, t.worker) == t.worker
  }

  lemma ResumesInAuthority(parent: Documents, worker: Documents, events: seq<Event>, m: nat, t: State)
    requires m < |events| && AllLegal(Begin(parent, worker), events, m) && !t.failed
    requires ResumedIdle(Begin(parent, worker), events, m) && t == Play(Begin(parent, worker), events, m)
    ensures InAuthority(Handle(t, events[m]))
  {
    RecoveredExactlyWhenGapIsIdle(parent, worker, events, m, events[m].buffers);
  }

  lemma {:induction false} AuthorityLasts(s: State, events: seq<Event>, m: nat, n: nat)
    requires m < n <= |events| && InAuthority(Handle(Play(s, events, m), events[m])) && !Play(s, events, n).failed
    ensures InAuthority(Play(s, events, n))
  {
    if n > m + 1 {
      FailureLasts(Play(s, events, n - 1), events[n - 1]);
      AuthorityLasts(s, events, m, n - 1);
      AuthorityStep(Play(s, events, n - 1), events[n - 1]);
    }
  }

  /** After such a recovery the Worker's documents are the parent's for as long as the
      parent does not fail, whatever is edited, opened or closed. */
  lemma RecoveredStaysInAuthority(parent: Documents, worker: Documents, events: seq<Event>, m: nat, n: nat, s: State)
    requires m < n <= |events| && s == Begin(parent, worker) && AllLegal(s, events, m)
    requires ResumedIdle(s, events, m) && !Play(s, events, n).failed
    ensures InAuthority(Play(s, events, n))
  {
    NeverFailed(s, events, m, n);
    ResumesInAuthority(parent, worker, events, m, Play(s, events, m));
    AuthorityLasts(s, events, m, n);
  }

  // ----- Answers -----

  /** In a system begun after the recovery, once a root's supervisor has accepted what was
      issued to it, a published answer was computed on exactly the parent's documents of
      that root. */
  lemma AnswersAreFreshAfterRecovery(owner: Uri -> Uri, root: Uri, parent: Documents, worker: Documents,
                                     events: seq<Event>, m: nat, n: nat, ts: seq<Protocol.Turn>, k: nat, i: nat)
    requires m < n <= |events| && AllLegal(Begin(parent, worker), events, m) && AllNamed(owner, events)
    requires ResumedIdle(Begin(parent, worker), events, m) && !Play(Begin(parent, worker), events, n).failed
    requires k < |ts| && |Protocol.Play(ts, k).p.settled| <= i < |Protocol.Play(ts, k + 1).p.settled|
    requires Protocol.Play(ts, k + 1).p.settled[i].outcome.Published?
    requires var issued := Issued(owner, Begin(parent, worker), events, n);
      Protocol.Play(ts, k).p.accepted == To(issued, |issued|, root)
    ensures var answer := Protocol.Play(ts, k + 1).p.settled[i].outcome;
      answer.start.documents == answer.finish.documents
      == Owned(owner, root, Play(Begin(parent, worker), events, n).parent)
  {
    var s := Begin(parent, worker);
    var issued := Issued(owner, s, events, n);
    RecoveredStaysInAuthority(parent, worker, events, m, n, s);
    IssuedIsHeld(owner, s, events, n);
    IssuedIsRouted(owner, s, events, n);
    FoldIsOwned(owner, root, issued, |issued|);
    Protocol.PublishedAnswersAreFresh(ts, k, i);
  }
}
