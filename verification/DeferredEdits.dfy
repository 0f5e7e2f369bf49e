/** The edits deferred during a recovery. */
module DeferredEdits {
  // They stay compact, they overflow only for their size, and the recovery ends.

  import opened Options
  import opened Mutations
  import opened Recycle

  // ----- Coalescing -----

  /** The second record only carries on what the first began. */
  predicate Continues(a: Deferral, b: Deferral) {
    && b.mutation.Change? && a.root == b.root
    && (a.mutation.Open? || a.mutation.Change?) && a.mutation.uri == b.mutation.uri
  }

  predicate Compact(ms: seq<Deferral>) {
    forall i :: 0 <= i < |ms| - 1 ==> !Continues(ms[i], ms[i + 1])
  }

  predicate CarriesOn(ms: seq<Deferral>, root: Uri, m: Mutation) {
    ms != [] && Continues(ms[|ms| - 1], Deferral(root, m))
  }

  lemma DeferringStaysCompact(ms: seq<Deferral>, root: Uri, m: Mutation)
    requires Compact(ms)
    ensures Compact(Deferred(ms, root, m))
    ensures |Deferred(ms, root, m)| == |ms| + if CarriesOn(ms, root, m) then 0 else 1
  {
    var after := Deferred(ms, root, m);
    forall i | 0 <= i < |after| - 1 ensures !Continues(after[i], after[i + 1]) {
      if i < |ms| - 1 { assert !Continues(ms[i], ms[i + 1]); }
    }
  }

  /** The text of the list once `m` is deferred: that of a record it carries on is replaced. */
  lemma DeferringBytes(ms: seq<Deferral>, root: Uri, m: Mutation)
    ensures var after := Deferred(ms, root, m);
      DeferredBytes(after, |after|) == DeferredBytes(ms, |ms|) + TextBytes(m)
        - if CarriesOn(ms, root, m) then TextBytes(ms[|ms| - 1].mutation) else 0
  {
    BytesPrefix(ms, Deferred(ms, root, m), if CarriesOn(ms, root, m) then |ms| - 1 else |ms|);
  }

  lemma IssueStaysCompact(s: State, root: Uri, m: Mutation)
    requires Compact(s.deferred)
    ensures Compact(Issue(s, root, m).deferred)
  {
    DeferringStaysCompact(s.deferred, root, m);
  }

  /** In every run of a recovery no deferred record carries on the one before it. */
  lemma {:induction false} DeferredStaysCompact(s: State, events: seq<Event>, n: nat)
    requires n <= |events| && s.deferred == []
    ensures Compact(Play(s, events, n).deferred)
  {
    if n > 0 {
      DeferredStaysCompact(s, events, n - 1);
      var t, e := Play(s, events, n - 1), events[n - 1];
      match e
      case Syncing(root, uri, version, text) =>
        IssueStaysCompact(t.(parent := t.parent[uri := Document(version, text)]), root,
                          if uri in t.parent then Change(uri, version, text) else Open(uri, version, text));
      case Closing(root, uri) =>
        if uri in t.parent {
          IssueStaysCompact(t.(parent := t.parent - {uri}), root, Close(uri, t.parent[uri].version));
        }
      case Notifying(root, batch) => IssueStaysCompact(t, root, Workspace(batch));
      case _ => {}
    }
  }

  // ----- Overflow -----

  /** What an event asks the Worker to be told. */
  function Told(s: State, e: Event): Option<Deferral> {
    match e
    case Syncing(root, uri, version, text) =>
      if uri !in s.parent then Some(Deferral(root, Open(uri, version, text)))
      else if s.parent[uri] == Document(version, text) then None
      else Some(Deferral(root, Change(uri, version, text)))
    case Closing(root, uri) => if uri in s.parent then Some(Deferral(root, Close(uri, s.parent[uri].version))) else None
    case Notifying(root, batch) => Some(Deferral(root, Workspace(batch)))
    case _ => None
  }

  /** There is room for it: at most 32 records and 4 MiB of text. */
  predicate Room(ms: seq<Deferral>, d: Deferral) {
    var replaced := if CarriesOn(ms, d.root, d.mutation) then TextBytes(ms[|ms| - 1].mutation) else 0;
    && |ms| + (if CarriesOn(ms, d.root, d.mutation) then 0 else 1) <= 32
    && DeferredBytes(ms, |ms|) + TextBytes(d.mutation) - replaced <= 4 * 1024 * 1024
  }

  lemma RoomExactly(ms: seq<Deferral>, d: Deferral)
    ensures Room(ms, d) <==> Fits(Deferred(ms, d.root, d.mutation))
  {
    DeferringBytes(ms, d.root, d.mutation);
    assert |Deferred(ms, d.root, d.mutation)| == |ms| + if CarriesOn(ms, d.root, d.mutation) then 0 else 1;
  }

  predicate Settled(s: State) { s.phase.Recovered? || s.phase.Abandoned? }

  /** A recovery fails exactly when it is made to, or when it has no room for what the Worker
      is to be told; what it has room for becomes the end of the list. After the recovery it
      is written to the Worker at once. */
  lemma FailsExactly(s: State, e: Event, t: State)
    requires t == Handle(s, e) && !e.Resuming?
    ensures t.failed <==>
      s.failed || e.Failing? || (!Settled(s) && Told(s, e).Some? && !Room(s.deferred, Told(s, e).value))
    ensures Told(s, e).Some? && !t.failed && s.phase.Recovered? ==>
      t.worker == Write(Told(s, e).value.mutation, s.worker) && t.deferred == s.deferred
    ensures Told(s, e).Some? && !t.failed && !Settled(s) ==>
      && |t.deferred| > 0 && t.worker == s.worker
      && t.deferred[|t.deferred| - 1].root == Told(s, e).value.root
      && forall d :: Write(t.deferred[|t.deferred| - 1].mutation, d) == Write(Told(s, e).value.mutation, d)
    ensures t.phase == s.phase
  {
    if Told(s, e).Some? { RoomExactly(s.deferred, Told(s, e).value); }
  }

  // ----- The recovery ends -----

  /** How many steps a recovery still takes when nothing else happens. */
  function Remaining(s: State): nat
    requires s.phase.Replaying? ==> s.phase.next <= |s.phase.buffers|
    requires s.phase.Flushing? ==> s.phase.next <= |s.phase.batch|
  {
    var flush := if s.deferred == [] then 2 else |s.deferred| + 3;
    match s.phase
    case Replacing => |s.parent| + 2 + flush
    case Replaying(list, next) => |list| - next + 1 + flush
    case Flushing(batch, next) => |batch| - next + flush
    case Emptied => 1
    case Recovered => 0
    case Abandoned => 0
  }

  lemma BuffersAreFew(buffers: seq<Entry>, d: Documents)
    requires Lists(buffers, d)
    ensures |buffers| == |d|
  {
    var uris := set i | 0 <= i < |buffers| :: buffers[i].uri;
    forall uri ensures uri in uris <==> uri in d {
      if uri in uris {
        var i :| 0 <= i < |buffers| && buffers[i].uri == uri;
        assert At(d, uri).Some?;
      }
    }
    assert uris == d.Keys;
    CountUris(buffers, |buffers|);
  }

  lemma {:induction false} CountUris(buffers: seq<Entry>, n: nat)
    requires n <= |buffers| && forall i, j :: 0 <= i < j < |buffers| ==> buffers[i].uri != buffers[j].uri
    ensures |set i | 0 <= i < n :: buffers[i].uri| == n
  {
    if n > 0 {
      CountUris(buffers, n - 1);
      assert (set i | 0 <= i < n :: buffers[i].uri)
          == (set i | 0 <= i < n - 1 :: buffers[i].uri) + {buffers[n - 1].uri};
    }
  }

  lemma ResumeAdvances(s: State, buffers: seq<Entry>)
    requires Inv(s) && Legal(s, Resuming(buffers))
    ensures var t := Resume(s, buffers);
      Inv(t) && t.failed == s.failed && Remaining(t) == if Remaining(s) == 0 then 0 else Remaining(s) - 1
  {
    ResumeKeepsInv(s, buffers);
    if s.phase.Replacing? { BuffersAreFew(buffers, s.parent); }
  }

  /** From every state of a recovery, if nothing else happens, it is over after so many steps:
      recovered exactly when it has not failed. */
  lemma {:induction false} RecoveryEnds(s: State, events: seq<Event>, n: nat)
    requires n <= |events| && Inv(s) && AllLegal(s, events, n) && forall i :: 0 <= i < n ==> events[i].Resuming?
    ensures Inv(Play(s, events, n)) && Play(s, events, n).failed == s.failed
    ensures Remaining(Play(s, events, n)) == if Remaining(s) < n then 0 else Remaining(s) - n
    ensures Remaining(s) <= n && !Settled(s) ==> Play(s, events, n).phase == if s.failed then Abandoned else Recovered
  {
    if n > 0 {
      RecoveryEnds(s, events, n - 1);
      ResumeAdvances(Play(s, events, n - 1), events[n - 1].buffers);
    }
  }
}
