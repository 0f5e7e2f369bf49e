/** Recovery by replaying buffers. */
module Recycle {
  // A failed Worker is replaced and given the parent's buffers.
  //
  // Edits go on meanwhile; they are deferred and flushed.
  //
  // The parent's map of open documents is the authority. Each await of the recovery is
  // one step of a state machine; edits may come between any two steps.

  import opened Options
  import opened Text
  import opened Mutations

  type Documents = map<Uri, Document>

  const MAX_DEFERRED: nat := 32

  datatype Deferral = Deferral(root: Uri, mutation: Mutation)

  // ----- Effect on the document map -----

  function Write(m: Mutation, d: Documents): Documents {
    match m
    case Open(uri, version, text) => d[uri := Document(version, text)]
    case Change(uri, version, text) => d[uri := Document(version, text)]
    case Close(uri, _) => d - {uri}
    case Workspace(_) => d
  }

  /** It is the document part of what the Worker knows. */
  lemma WriteIsApply(m: Mutation, k: Knowledge)
    ensures Apply(m, k).documents == Write(m, k.documents)
  {
  }

  function WriteAll(ms: seq<Deferral>, n: nat, d: Documents): Documents
    requires n <= |ms|
  {
    if n == 0 then d else Write(ms[n - 1].mutation, WriteAll(ms, n - 1, d))
  }

  predicate Touches(m: Mutation, uri: Uri) { !m.Workspace? && m.uri == uri }

  predicate AnyTouches(ms: seq<Deferral>, n: nat, uri: Uri)
    requires n <= |ms|
  {
    exists i :: 0 <= i < n && Touches(ms[i].mutation, uri)
  }

  function At(d: Documents, uri: Uri): Option<Document> {
    if uri in d then Some(d[uri]) else None
  }

  lemma WriteAt(m: Mutation, d: Documents, uri: Uri)
    ensures At(Write(m, d), uri) ==
      if !Touches(m, uri) then At(d, uri) else if m.Close? then None else Some(Document(m.version, m.text))
  {
  }

  /** What replay leaves at a document does not depend on what was there, once any of the
      mutations touches it. */
  lemma {:induction false} WriteAllAt(ms: seq<Deferral>, n: nat, d: Documents, e: Documents, uri: Uri)
    requires n <= |ms|
    ensures !AnyTouches(ms, n, uri) ==> At(WriteAll(ms, n, d), uri) == At(d, uri)
    ensures AnyTouches(ms, n, uri) ==> At(WriteAll(ms, n, d), uri) == At(WriteAll(ms, n, e), uri)
  {
    if n > 0 {
      WriteAllAt(ms, n - 1, d, e, uri);
      WriteAt(ms[n - 1].mutation, WriteAll(ms, n - 1, d), uri);
      WriteAt(ms[n - 1].mutation, WriteAll(ms, n - 1, e), uri);
      if AnyTouches(ms, n, uri) && !Touches(ms[n - 1].mutation, uri) {
        var i :| 0 <= i < n && Touches(ms[i].mutation, uri);
        assert i < n - 1;
      }
      if AnyTouches(ms, n - 1, uri) {
        var i :| 0 <= i < n - 1 && Touches(ms[i].mutation, uri);
        assert AnyTouches(ms, n, uri);
      }
    }
  }

  lemma SameDocuments(d: Documents, e: Documents)
    requires forall uri :: At(d, uri) == At(e, uri)
    ensures d == e
  {
    forall uri ensures uri in d <==> uri in e { assert At(d, uri) == At(e, uri); }
    forall uri | uri in d ensures d[uri] == e[uri] { assert At(d, uri) == At(e, uri); }
  }

  /** Replaying edits that the buffers already include changes nothing. */
  lemma ReplayIsIdempotent(ms: seq<Deferral>, d: Documents)
    ensures WriteAll(ms, |ms|, WriteAll(ms, |ms|, d)) == WriteAll(ms, |ms|, d)
  {
    var once := WriteAll(ms, |ms|, d);
    var twice := WriteAll(ms, |ms|, once);
    forall uri ensures At(twice, uri) == At(once, uri) {
      WriteAllAt(ms, |ms|, once, d, uri);
    }
    SameDocuments(twice, once);
  }

  // ----- Deferring -----

  /** A change right after an open or change of the same document replaces it. */
  predicate Coalesces(ms: seq<Deferral>, root: Uri, m: Mutation) {
    && ms != [] && m.Change?
    && var tail := ms[|ms| - 1];
      tail.root == root && (tail.mutation.Open? || tail.mutation.Change?) && tail.mutation.uri == m.uri
  }

  function Replacement(tail: Mutation, m: Mutation): Mutation
    requires m.Change?
  {
    if tail.Open? then Open(m.uri, m.version, m.text) else m
  }

  function Deferred(ms: seq<Deferral>, root: Uri, m: Mutation): seq<Deferral> {
    if Coalesces(ms, root, m)
    then ms[|ms| - 1 := Deferral(root, Replacement(ms[|ms| - 1].mutation, m))]
    else ms + [Deferral(root, m)]
  }

  function DeferredBytes(ms: seq<Deferral>, n: nat): nat
    requires n <= |ms|
  {
    if n == 0 then 0 else DeferredBytes(ms, n - 1) + TextBytes(ms[n - 1].mutation)
  }

  predicate Fits(ms: seq<Deferral>) {
    |ms| <= MAX_DEFERRED && DeferredBytes(ms, |ms|) <= MAX_TEXT_BYTES
  }

  lemma {:induction false} WriteAllPrefix(a: seq<Deferral>, b: seq<Deferral>, n: nat, d: Documents)
    requires n <= |a| && n <= |b| && forall i :: 0 <= i < n ==> a[i] == b[i]
    ensures WriteAll(a, n, d) == WriteAll(b, n, d)
  {
    if n > 0 { WriteAllPrefix(a, b, n - 1, d); }
  }

  lemma PutTwice(a: Mutation, m: Mutation, d: Documents)
    requires (a.Open? || a.Change?) && m.Change? && a.uri == m.uri
    ensures Write(Replacement(a, m), d) == Write(m, Write(a, d))
  {
    assert d[a.uri := Document(a.version, a.text)][m.uri := Document(m.version, m.text)]
        == d[m.uri := Document(m.version, m.text)];
  }

  /** Deferring, with its coalescing, means one more edit at the end. */
  lemma DeferringAppends(ms: seq<Deferral>, root: Uri, m: Mutation, d: Documents)
    ensures WriteAll(Deferred(ms, root, m), |Deferred(ms, root, m)|, d) == Write(m, WriteAll(ms, |ms|, d))
  {
    var after := Deferred(ms, root, m);
    if Coalesces(ms, root, m) {
      WriteAllPrefix(ms, after, |ms| - 1, d);
      PutTwice(ms[|ms| - 1].mutation, m, WriteAll(ms, |ms| - 1, d));
    } else {
      WriteAllPrefix(ms, after, |ms|, d);
    }
  }

  lemma {:induction false} BytesPrefix(a: seq<Deferral>, b: seq<Deferral>, n: nat)
    requires n <= |a| && n <= |b| && forall i :: 0 <= i < n ==> a[i] == b[i]
    ensures DeferredBytes(a, n) == DeferredBytes(b, n)
  {
    if n > 0 { BytesPrefix(a, b, n - 1); }
  }

  datatype Deferring = Inactive | Taken | Overflow

  class SemanticWorkerRecycle {
    var mutations: seq<Deferral>
    var active: bool
    var changed: bool

    constructor ()
      ensures mutations == [] && !active && !changed
    {
      mutations, active, changed := [], false, false;
    }

    /** Overflow leaves the list as it is and ends the recovery. */
    method Defer(root: Uri, m: Mutation) returns (r: Deferring)
      modifies this
      ensures active == old(active) && changed == (old(changed) || old(active))
      ensures r ==
        if !old(active) then Inactive
        else if Fits(Deferred(old(mutations), root, m)) then Taken else Overflow
      ensures mutations == if r.Taken? then Deferred(old(mutations), root, m) else old(mutations)
    {
      if !active { return Inactive; }
      changed := true;
      var coalesce := Coalesces(mutations, root, m);
      var next := if coalesce then Replacement(mutations[|mutations| - 1].mutation, m) else m;
      var records := |mutations| + if coalesce then 0 else 1;
      var bytes: int := 0;
      for i := 0 to |mutations|
        invariant mutations == old(mutations) && active && changed
        invariant bytes == DeferredBytes(mutations, i)
      {
        bytes := bytes + TextBytes(mutations[i].mutation);
      }
      bytes := bytes - (if coalesce then TextBytes(mutations[|mutations| - 1].mutation) else 0) + TextBytes(next);
      ghost var after := Deferred(mutations, root, m);
      BytesPrefix(mutations, after, if coalesce then |mutations| - 1 else |mutations|);
      if records > MAX_DEFERRED || bytes > MAX_TEXT_BYTES { return Overflow; }
      if coalesce {
        mutations := mutations[|mutations| - 1 := Deferral(root, next)];
      } else {
        mutations := mutations + [Deferral(root, next)];
      }
      r := Taken;
    }

    /** The recovery is over; what is still deferred is dropped. */
    method Finish()
      modifies this
      ensures mutations == [] && !active && changed == old(changed)
    {
      mutations, active := [], false;
    }
  }

  // ----- The recovery -----

  datatype Entry = Entry(uri: Uri, document: Document)

  /** `Emptied`: the flush loop saw an empty list and its caller has not resumed yet. */
  datatype Phase =
    | Replacing
    | Replaying(buffers: seq<Entry>, next: nat)
    | Flushing(batch: seq<Deferral>, next: nat)
    | Emptied
    | Recovered
    | Abandoned

  /** `origin` is bookkeeping: the parent's map when the recovery began. */
  datatype State = State(parent: Documents, worker: Documents, deferred: seq<Deferral>, phase: Phase,
                         failed: bool, origin: Documents)

  function Begin(parent: Documents, worker: Documents): State {
    State(parent, worker, [], Replacing, false, parent)
  }

  /** The buffers in the order the map lists them. */
  ghost predicate Lists(buffers: seq<Entry>, d: Documents) {
    && (forall i, j :: 0 <= i < j < |buffers| ==> buffers[i].uri != buffers[j].uri)
    && (forall i :: 0 <= i < |buffers| ==> At(d, buffers[i].uri) == Some(buffers[i].document))
    && (forall uri :: uri in d ==> exists i :: 0 <= i < |buffers| && buffers[i].uri == uri)
  }

  function Replay(buffers: seq<Entry>, from: nat, d: Documents): Documents
    requires from <= |buffers|
    decreases |buffers| - from
  {
    if from == |buffers| then d else Replay(buffers, from + 1, d[buffers[from].uri := buffers[from].document])
  }

  /** What the rest of the batch makes of `d`. */
  function Rest(batch: seq<Deferral>, from: nat, d: Documents): Documents
    requires from <= |batch|
    decreases |batch| - from
  {
    if from == |batch| then d else Rest(batch, from + 1, Write(batch[from].mutation, d))
  }

  /** The parent issues a mutation: deferred while a recovery is active, dropped once it has
      failed, and sent to the Worker otherwise. */
  function Issue(s: State, root: Uri, m: Mutation): State {
    if s.failed || s.phase.Abandoned? then s
    else if s.phase.Recovered? then s.(worker := Write(m, s.worker))
    else if !Fits(Deferred(s.deferred, root, m)) then s.(failed := true)
    else s.(deferred := Deferred(s.deferred, root, m))
  }

  function Sync(s: State, root: Uri, uri: Uri, version: nat, text: Utf16): State {
    var document := Document(version, text);
    var t := s.(parent := s.parent[uri := document]);
    if At(s.parent, uri) == Some(document) then t
    else Issue(t, root, if uri in s.parent then Change(uri, version, text) else Open(uri, version, text))
  }

  function CloseDocument(s: State, root: Uri, uri: Uri): State {
    if uri !in s.parent then s
    else Issue(s.(parent := s.parent - {uri}), root, Close(uri, s.parent[uri].version))
  }

  /** The recovery goes on after one await. */
  function Resume(s: State, buffers: seq<Entry>): State {
    match s.phase
    case Replacing => s.(worker := map[], phase := Replaying(buffers, 0))
    case Replaying(list, next) =>
      if next >= |list| then s.(phase := Flushing([], 0))
      else s.(worker := s.worker[list[next].uri := list[next].document], phase := Replaying(list, next + 1))
    case Flushing(batch, next) =>
      if next < |batch| then s.(worker := Write(batch[next].mutation, s.worker), phase := Flushing(batch, next + 1))
      else if s.deferred == [] then s.(phase := Emptied)
      else s.(deferred := [], phase := Flushing(s.deferred, 0))
    case Emptied => s.(deferred := [], phase := if s.failed then Abandoned else Recovered)
    case Recovered => s
    case Abandoned => s
  }

  datatype Event =
    | Syncing(root: Uri, uri: Uri, version: nat, text: Utf16)
    | Closing(root: Uri, uri: Uri)
    | Notifying(root: Uri, batch: Batch)
    | Resuming(buffers: seq<Entry>)
    | Failing

  function Handle(s: State, e: Event): State {
    match e
    case Syncing(root, uri, version, text) => Sync(s, root, uri, version, text)
    case Closing(root, uri) => CloseDocument(s, root, uri)
    case Notifying(root, batch) => Issue(s, root, Workspace(batch))
    case Resuming(buffers) => Resume(s, buffers)
    case Failing => s.(failed := true)
  }

  /** The buffers replayed are the parent's at the time they are listed. */
  ghost predicate Legal(s: State, e: Event) {
    e.Resuming? && s.phase.Replacing? ==> Lists(e.buffers, s.parent)
  }

  function Play(s: State, events: seq<Event>, n: nat): State
    requires n <= |events|
  {
    if n == 0 then s else Handle(Play(s, events, n - 1), events[n - 1])
  }

  ghost predicate AllLegal(s: State, events: seq<Event>, n: nat)
    requires n <= |events|
  {
    n == 0 || (AllLegal(s, events, n - 1) && Legal(Play(s, events, n - 1), events[n - 1]))
  }

  // ----- What every step keeps -----

  /** What the Worker will hold when all that is under way has been sent. */
  function Coming(s: State): Documents
    requires s.phase.Replaying? ==> s.phase.next <= |s.phase.buffers|
    requires s.phase.Flushing? ==> s.phase.next <= |s.phase.batch|
  {
    match s.phase
    case Replaying(list, next) => Replay(list, next, s.worker)
    case Flushing(batch, next) => Rest(batch, next, s.worker)
    case _ => s.worker
  }

  ghost predicate Inv(s: State) {
    && (s.phase.Replaying? ==> s.phase.next <= |s.phase.buffers|)
    && (s.phase.Flushing? ==> s.phase.next <= |s.phase.batch|)
    && (!s.failed ==>
          match s.phase
          case Replacing => WriteAll(s.deferred, |s.deferred|, s.origin) == s.parent
          case Recovered => true
          case Abandoned => true
          case _ => WriteAll(s.deferred, |s.deferred|, Coming(s)) == s.parent)
  }

  lemma {:induction false} ReplayPuts(buffers: seq<Entry>, from: nat, d: Documents, uri: Uri)
    requires from <= |buffers| && forall i, j :: 0 <= i < j < |buffers| ==> buffers[i].uri != buffers[j].uri
    ensures (forall i :: from <= i < |buffers| ==> buffers[i].uri != uri) ==>
      At(Replay(buffers, from, d), uri) == At(d, uri)
    ensures forall i :: from <= i < |buffers| && buffers[i].uri == uri ==>
      At(Replay(buffers, from, d), uri) == Some(buffers[i].document)
    decreases |buffers| - from
  {
    if from < |buffers| { ReplayPuts(buffers, from + 1, d[buffers[from].uri := buffers[from].document], uri); }
  }

  /** Opening every listed buffer in an empty Worker gives the parent's map. */
  lemma ReplayRestores(buffers: seq<Entry>, d: Documents)
    requires Lists(buffers, d)
    ensures Replay(buffers, 0, map[]) == d
  {
    var r := Replay(buffers, 0, map[]);
    forall uri ensures At(r, uri) == At(d, uri) {
      ReplayPuts(buffers, 0, map[], uri);
      if uri in d {
        var i :| 0 <= i < |buffers| && buffers[i].uri == uri;
      } else {
        forall i | 0 <= i < |buffers| ensures buffers[i].uri != uri { assert At(d, buffers[i].uri).Some?; }
      }
    }
    SameDocuments(r, d);
  }

  lemma IssueKeepsInv(s: State, root: Uri, m: Mutation, parent: Documents)
    requires Inv(s) && !s.phase.Recovered? && !s.phase.Abandoned? && parent == Write(m, s.parent)
    ensures Inv(Issue(s.(parent := parent), root, m))
  {
    if s.phase.Replacing? {
      DeferringAppends(s.deferred, root, m, s.origin);
    } else {
      DeferringAppends(s.deferred, root, m, Coming(s));
    }
  }

  lemma {:induction false} RestIsAll(batch: seq<Deferral>, n: nat, d: Documents)
    requires n <= |batch|
    ensures Rest(batch, n, WriteAll(batch, n, d)) == WriteAll(batch, |batch|, d)
    decreases |batch| - n
  {
    if n < |batch| { RestIsAll(batch, n + 1, d); }
  }

  lemma ResumeKeepsInv(s: State, buffers: seq<Entry>)
    requires Inv(s) && Legal(s, Resuming(buffers))
    ensures Inv(Resume(s, buffers))
  {
    if s.phase.Replacing? {
      ReplayRestores(buffers, s.parent);
      ReplayIsIdempotent(s.deferred, s.origin);
    } else if s.phase.Flushing? && s.phase.next == |s.phase.batch| && s.deferred != [] {
      RestIsAll(s.deferred, 0, s.worker);
    }
  }

  lemma HandleKeepsInv(s: State, e: Event)
    requires Inv(s) && Legal(s, e)
    ensures Inv(Handle(s, e))
  {
    match e
    case Resuming(buffers) => ResumeKeepsInv(s, buffers);
    case Syncing(root, uri, version, text) =>
      if At(s.parent, uri) == Some(Document(version, text)) {
        assert s.parent[uri := Document(version, text)] == s.parent;
      } else if !s.phase.Recovered? && !s.phase.Abandoned? {
        IssueKeepsInv(s, root, if uri in s.parent then Change(uri, version, text) else Open(uri, version, text),
                      s.parent[uri := Document(version, text)]);
      }
    case Closing(root, uri) =>
      if uri in s.parent && !s.phase.Recovered? && !s.phase.Abandoned? {
        IssueKeepsInv(s, root, Close(uri, s.parent[uri].version), s.parent - {uri});
      }
    case Notifying(root, batch) =>
      if !s.phase.Recovered? && !s.phase.Abandoned? { IssueKeepsInv(s, root, Workspace(batch), s.parent); }
    case Failing =>
  }

  lemma {:induction false} InvInEveryRun(parent: Documents, worker: Documents, events: seq<Event>, n: nat)
    requires n <= |events| && AllLegal(Begin(parent, worker), events, n)
    ensures Inv(Play(Begin(parent, worker), events, n))
  {
    if n > 0 {
      InvInEveryRun(parent, worker, events, n - 1);
      HandleKeepsInv(Play(Begin(parent, worker), events, n - 1), events[n - 1]);
    }
  }

  /** Whatever edits, opens and closes arrive during a recovery, when the flush loop finds
      the list empty the new Worker holds exactly the parent's documents, although deferred
      edits were replayed over buffers that already included them. */
  lemma RecoveryRestoresAuthority(parent: Documents, worker: Documents, events: seq<Event>, n: nat)
    requires n < |events| && AllLegal(Begin(parent, worker), events, n + 1)
    ensures var s, t := Play(Begin(parent, worker), events, n), Play(Begin(parent, worker), events, n + 1);
      !s.phase.Emptied? && t.phase.Emptied? && !t.failed ==> t.deferred == [] && t.worker == t.parent
  {
    InvInEveryRun(parent, worker, events, n + 1);
  }

  // ----- The step after the loop -----

  /** Edits deferred after the loop saw the list empty, before its caller resumed, are
      dropped: the recovered Worker holds the parent's documents exactly when those edits
      together change nothing. */
  lemma RecoveredExactlyWhenGapIsIdle(parent: Documents, worker: Documents, events: seq<Event>, n: nat,
                                      buffers: seq<Entry>)
    requires n <= |events| && AllLegal(Begin(parent, worker), events, n)
    requires Play(Begin(parent, worker), events, n).phase.Emptied? && !Play(Begin(parent, worker), events, n).failed
    ensures var s := Play(Begin(parent, worker), events, n);
      var t := Resume(s, buffers);
      && t.phase.Recovered? && t.parent == WriteAll(s.deferred, |s.deferred|, t.worker)
      && (t.worker == t.parent <==> WriteAll(s.deferred, |s.deferred|, s.worker) == s.worker)
  {
    InvInEveryRun(parent, worker, events, n);
  }

  /** Such an edit can be lost: a document opened in the gap is unknown to the Worker. */
  lemma GapLosesAnEdit(uri: Uri)
    ensures var events := [Resuming([]), Resuming([]), Resuming([]), Syncing("root", uri, 1, []), Resuming([])];
      && AllLegal(Begin(map[], map[]), events, 5)
      && var t := Play(Begin(map[], map[]), events, 5);
        t.phase.Recovered? && uri in t.parent && uri !in t.worker
  {
    var events := [Resuming([]), Resuming([]), Resuming([]), Syncing("root", uri, 1, []), Resuming([])];
    var s := Begin(map[], map[]);
    assert Lists(events[0].buffers, s.parent);
    assert Play(s, events, 0) == s;
    assert Play(s, events, 1) == s.(phase := Replaying([], 0));
    assert Play(s, events, 2) == s.(phase := Flushing([], 0));
    assert Play(s, events, 3) == s.(phase := Emptied);
    GapDefers(uri);
    var open := [Deferral("root", Open(uri, 1, []))];
    assert Play(s, events, 4) == State(map[uri := Document(1, [])], map[], open, Emptied, false, map[]);
    assert Legal(s, events[0]);
    assert AllLegal(s, events, 0);
    assert AllLegal(s, events, 1);
    assert AllLegal(s, events, 2);
    assert AllLegal(s, events, 3);
    assert AllLegal(s, events, 4);
    assert AllLegal(s, events, 5);
  }

  lemma GapDefers(uri: Uri)
    ensures var m := Open(uri, 1, []); Deferred([], "root", m) == [Deferral("root", m)] && Fits([Deferral("root", m)])
  {
    var m := Open(uri, 1, []);
    assert TextBytes(m) == 0;
    assert DeferredBytes([Deferral("root", m)], 1) == DeferredBytes([Deferral("root", m)], 0) + TextBytes(m);
  }
}
