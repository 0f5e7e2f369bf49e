/** Accepted edits and their queue. */
module Mutations {
  // A mutation is given two meanings: its effect on the Worker (`Apply`) and its place
  // in a document's open/close lifetime (`Lifetimes`). The coalescing rules are then
  // proved to keep both, for every queue and every accepted mutation.

  import opened Options
  import opened Text

  type Uri = string

  datatype FileKind = Created | Changed | Deleted

  datatype FileChange = FileChange(uri: Uri, kind: FileKind)

  datatype Batch = Batch(rootDirty: bool, configurationChanged: bool, resourceDirty: bool,
                         resourceChanged: bool, changes: seq<FileChange>)

  datatype Mutation =
    | Open(uri: Uri, version: nat, text: Utf16)
    | Change(uri: Uri, version: nat, text: Utf16)
    | Close(uri: Uri, version: nat)
    | Workspace(batch: Batch)

  const MAX_FILE_CHANGES: nat := 1024
  const MAX_TEXT_BYTES: nat := 4 * 1024 * 1024

  function TextBytes(m: Mutation): nat {
    if m.Open? || m.Change? then RawBytes(m.text) else 0
  }

  // ----- The meaning of a mutation -----

  datatype Document = Document(version: nat, text: Utf16)

  /** What the Worker knows. `gone` records, per watched path, whether the last event
      for it was a delete; `barriers` are the document maps on which workspace events
      arrived, so that an edit that crosses a workspace event changes the knowledge. */
  datatype Knowledge = Knowledge(documents: map<Uri, Document>, gone: map<Uri, bool>,
                                 barriers: set<map<Uri, Document>>, rootDirty: bool,
                                 configurationChanged: bool, resourceDirty: bool, resourceChanged: bool)

  const Nothing := Knowledge(map[], map[], {}, false, false, false, false)

  function Observe(changes: seq<FileChange>, gone: map<Uri, bool>): map<Uri, bool> {
    if changes == [] then gone
    else
      var last := changes[|changes| - 1];
      Observe(changes[..|changes| - 1], gone)[last.uri := last.kind.Deleted?]
  }

  function Apply(m: Mutation, k: Knowledge): Knowledge {
    match m
    case Open(uri, version, text) => k.(documents := k.documents[uri := Document(version, text)])
    case Change(uri, version, text) => k.(documents := k.documents[uri := Document(version, text)])
    case Close(uri, _) => k.(documents := k.documents - {uri})
    case Workspace(b) =>
      k.(gone := Observe(b.changes, k.gone), barriers := k.barriers + {k.documents},
         rootDirty := k.rootDirty || b.rootDirty,
         configurationChanged := k.configurationChanged || b.configurationChanged,
         resourceDirty := k.resourceDirty || b.resourceDirty,
         resourceChanged := k.resourceChanged || b.resourceChanged)
  }

  function Fold(ms: seq<Mutation>, k: Knowledge): Knowledge {
    if ms == [] then k else Apply(ms[|ms| - 1], Fold(ms[..|ms| - 1], k))
  }

  lemma {:induction false} FoldSplits(a: seq<Mutation>, b: seq<Mutation>, k: Knowledge)
    ensures Fold(a + b, k) == Fold(b, Fold(a, k))
  {
    if b == [] {
      assert a + b == a;
    } else {
      assert (a + b)[..|a + b| - 1] == a + b[..|b| - 1];
      FoldSplits(a, b[..|b| - 1], k);
    }
  }

  lemma FoldAround(a: seq<Mutation>, m: Mutation, b: seq<Mutation>, k: Knowledge)
    ensures Fold(a + ([m] + b), k) == Fold(b, Apply(m, Fold(a, k)))
  {
    FoldSplits(a, [m] + b, k);
    FoldSplits([m], b, Fold(a, k));
    assert [m][..0] == [];
  }

  // ----- Document lifetimes -----

  /** The documents open after `ms`, or nothing when some mutation opens an open
      document or touches a closed one. */
  datatype Lifetime = Broken | Alive(open: set<Uri>)

  function Live(m: Mutation, l: Lifetime): Lifetime {
    if l.Broken? then Broken
    else
      match m
      case Open(uri, _, _) => if uri in l.open then Broken else Alive(l.open + {uri})
      case Change(uri, _, _) => if uri in l.open then l else Broken
      case Close(uri, _) => if uri in l.open then Alive(l.open - {uri}) else Broken
      case Workspace(_) => l
  }

  function Lifetimes(ms: seq<Mutation>, l: Lifetime): Lifetime {
    if ms == [] then l else Live(ms[|ms| - 1], Lifetimes(ms[..|ms| - 1], l))
  }

  lemma {:induction false} LifetimesSplit(a: seq<Mutation>, b: seq<Mutation>, l: Lifetime)
    ensures Lifetimes(a + b, l) == Lifetimes(b, Lifetimes(a, l))
  {
    if b == [] {
      assert a + b == a;
    } else {
      assert (a + b)[..|a + b| - 1] == a + b[..|b| - 1];
      LifetimesSplit(a, b[..|b| - 1], l);
    }
  }

  lemma LifetimesAround(a: seq<Mutation>, m: Mutation, b: seq<Mutation>, l: Lifetime)
    ensures Lifetimes(a + ([m] + b), l) == Lifetimes(b, Live(m, Lifetimes(a, l)))
  {
    LifetimesSplit(a, [m] + b, l);
    LifetimesSplit([m], b, Lifetimes(a, l));
    assert [m][..0] == [];
  }

  // ----- Coalescing -----

  /** The backward search of the queue: the index that absorbs `m`, or -1. */
  method FindCoalescing(pending: seq<Mutation>, m: Mutation) returns (found: int)
    ensures found == Absorber(pending, m)
  {
    if m.Workspace? {
      return if pending != [] && pending[|pending| - 1].Workspace? then |pending| - 1 else -1;
    }
    var index := |pending| - 1;
    assert pending[..|pending|] == pending;
    while index >= 0
      invariant -1 <= index < |pending|
      invariant Absorber(pending, m) == Absorber(pending[..index + 1], m)
    {
      assert pending[..index + 1][..index] == pending[..index];
      var record := pending[index];
      if record.Workspace? {
        return -1;
      }
      if record.uri == m.uri {
        return if record.Close? || m.Close? then -1 else index;
      }
      index := index - 1;
    }
    return -1;
  }

  function Absorber(pending: seq<Mutation>, m: Mutation): (found: int)
    ensures -1 <= found < |pending|
  {
    if pending == [] then -1
    else
      var last := |pending| - 1;
      if m.Workspace? then (if pending[last].Workspace? then last else -1)
      else if pending[last].Workspace? then -1
      else if pending[last].uri == m.uri then
        (if pending[last].Close? || m.Close? then -1 else last)
      else Absorber(pending[..last], m)
  }

  function MergeDocument(previous: Mutation, next: Mutation): (merged: Mutation)
    requires !previous.Workspace? && !next.Workspace?
  {
    if previous.Open? && next.Change? then Open(next.uri, next.version, next.text) else next
  }

  function MergeKind(previous: FileKind, next: FileKind): (merged: FileKind)
    ensures merged.Deleted? <==> next.Deleted?
  {
    match previous
    case Created => if next.Changed? then Created else next
    case Deleted => if next.Created? then Changed else next
    case Changed => if next.Created? then Changed else next
  }

  /** The insertion-ordered JavaScript Map of path to kind. */
  datatype Kinds = Kinds(paths: seq<Uri>, kind: map<Uri, FileKind>) {
    ghost predicate Valid() {
      && (forall i, j :: 0 <= i < j < |paths| ==> paths[i] != paths[j])
      && (forall u :: u in paths <==> u in kind)
    }

    function Set(uri: Uri, k: FileKind): (r: Kinds)
      ensures Valid() ==> r.Valid()
    {
      Kinds(if uri in kind then paths else paths + [uri], kind[uri := k])
    }

    function Fold(change: FileChange): (r: Kinds)
      ensures Valid() ==> r.Valid()
    {
      Set(change.uri, if change.uri in kind then MergeKind(kind[change.uri], change.kind) else change.kind)
    }
  }

  function LatestKinds(changes: seq<FileChange>): (m: Kinds)
    ensures m.Valid()
  {
    if changes == [] then Kinds([], map[])
    else
      var last := changes[|changes| - 1];
      LatestKinds(changes[..|changes| - 1]).Set(last.uri, last.kind)
  }

  function MergedKinds(m: Kinds, changes: seq<FileChange>): (r: Kinds)
    requires m.Valid()
    ensures r.Valid()
  {
    if changes == [] then m
    else MergedKinds(m, changes[..|changes| - 1]).Fold(changes[|changes| - 1])
  }

  function Listed(m: Kinds): (changes: seq<FileChange>)
    requires m.Valid()
    ensures |changes| == |m.paths|
    ensures forall i :: 0 <= i < |changes| ==>
      m.paths[i] in m.kind && changes[i] == FileChange(m.paths[i], m.kind[m.paths[i]])
  {
    seq(|m.paths|, i requires 0 <= i < |m.paths| => FileChange(m.paths[i], m.kind[m.paths[i]]))
  }

  function MergeBatches(previous: Batch, next: Batch): Batch {
    Batch(previous.rootDirty || next.rootDirty,
          previous.configurationChanged || next.configurationChanged,
          previous.resourceDirty || next.resourceDirty,
          previous.resourceChanged || next.resourceChanged,
          Listed(MergedKinds(LatestKinds(previous.changes), next.changes)))
  }

  /** The loop form of the merge: seed a Map from `previous`, then fold `next` into it. */
  method MergeWorkspaceInvalidations(previous: Batch, next: Batch) returns (merged: Batch)
    ensures merged == MergeBatches(previous, next)
  {
    var kinds := SeedKinds(previous.changes);
    kinds := FoldKinds(kinds, next.changes);
    merged := Batch(previous.rootDirty || next.rootDirty,
                    previous.configurationChanged || next.configurationChanged,
                    previous.resourceDirty || next.resourceDirty,
                    previous.resourceChanged || next.resourceChanged, Listed(kinds));
  }

  method SeedKinds(changes: seq<FileChange>) returns (kinds: Kinds)
    ensures kinds == LatestKinds(changes)
  {
    kinds := Kinds([], map[]);
    for i := 0 to |changes|
      invariant kinds == LatestKinds(changes[..i])
    {
      assert changes[..i + 1][..i] == changes[..i];
      kinds := kinds.Set(changes[i].uri, changes[i].kind);
    }
    assert changes[..|changes|] == changes;
  }

  method FoldKinds(seed: Kinds, changes: seq<FileChange>) returns (kinds: Kinds)
    requires seed.Valid()
    ensures kinds == MergedKinds(seed, changes)
  {
    kinds := seed;
    for i := 0 to |changes|
      invariant kinds == MergedKinds(seed, changes[..i])
    {
      assert changes[..i + 1][..i] == changes[..i];
      kinds := kinds.Fold(changes[i]);
    }
    assert changes[..|changes|] == changes;
  }

  /** The queue after accepting `m`: merged into its absorber, or appended. */
  function Enqueue(pending: seq<Mutation>, m: Mutation): seq<Mutation> {
    var at := Absorber(pending, m);
    if at < 0 then pending + [m] else pending[at := Merge(pending[at], m)]
  }

  function Merge(previous: Mutation, next: Mutation): Mutation {
    if previous.Workspace? && next.Workspace? then Workspace(MergeBatches(previous.batch, next.batch))
    else if !previous.Workspace? && !next.Workspace? then MergeDocument(previous, next)
    else next
  }

  // ----- Merging a batch keeps what the events said -----

  ghost function GoneOf(m: Kinds): map<Uri, bool> {
    map u | u in m.kind :: m.kind[u].Deleted?
  }

  lemma {:induction false} LatestSaysLast(changes: seq<FileChange>)
    ensures GoneOf(LatestKinds(changes)) == Observe(changes, map[])
  {
    if changes != [] {
      LatestSaysLast(changes[..|changes| - 1]);
    }
  }

  lemma {:induction false} MergedSaysLast(m: Kinds, changes: seq<FileChange>)
    requires m.Valid()
    ensures GoneOf(MergedKinds(m, changes)) == Observe(changes, GoneOf(m))
  {
    if changes != [] {
      MergedSaysLast(m, changes[..|changes| - 1]);
    }
  }

  lemma {:induction false} ObserveOnto(changes: seq<FileChange>, gone: map<Uri, bool>)
    ensures Observe(changes, gone) == gone + Observe(changes, map[])
  {
    if changes != [] {
      ObserveOnto(changes[..|changes| - 1], gone);
    }
  }

  /** A listing without repeated paths says exactly what its Map says. */
  lemma {:induction false} ListingSaysMap(m: Kinds)
    requires m.Valid()
    ensures Observe(Listed(m), map[]) == GoneOf(m)
  {
    var changes := Listed(m);
    ListingPrefix(m, |changes|);
    assert changes[..|changes|] == changes && m.paths[..|changes|] == m.paths;
  }

  lemma {:induction false} ListingPrefix(m: Kinds, i: nat)
    requires m.Valid() && i <= |m.paths|
    ensures Observe(Listed(m)[..i], map[]) == map u | u in m.paths[..i] && u in m.kind :: m.kind[u].Deleted?
  {
    if i > 0 {
      ListingPrefix(m, i - 1);
      assert Listed(m)[..i][..i - 1] == Listed(m)[..i - 1];
      assert m.paths[..i] == m.paths[..i - 1] + [m.paths[i - 1]];
    }
  }

  /** The merged batch says, per path, what the two batches said one after the other. */
  lemma MergeKeepsEvents(previous: Batch, next: Batch, gone: map<Uri, bool>)
    ensures Observe(MergeBatches(previous, next).changes, gone)
         == Observe(next.changes, Observe(previous.changes, gone))
  {
    var p, n := Observe(previous.changes, map[]), Observe(next.changes, map[]);
    MergedPathsSayBoth(previous.changes, next.changes);
    ObserveOnto(MergeBatches(previous, next).changes, gone);
    ObserveOnto(previous.changes, gone);
    ObserveOnto(next.changes, gone + p);
    OverlayAssociates(gone, p, n);
  }

  lemma OverlayAssociates(a: map<Uri, bool>, b: map<Uri, bool>, c: map<Uri, bool>)
    ensures a + (b + c) == (a + b) + c
  {
  }

  lemma MergedPathsSayBoth(previous: seq<FileChange>, next: seq<FileChange>)
    ensures Observe(Listed(MergedKinds(LatestKinds(previous), next)), map[])
         == Observe(previous, map[]) + Observe(next, map[])
  {
    var seed := LatestKinds(previous);
    ListingSaysMap(MergedKinds(seed, next));
    MergedSaysLast(seed, next);
    LatestSaysLast(previous);
    ObserveOnto(next, GoneOf(seed));
  }

  ghost function PathsOf(changes: seq<FileChange>): set<Uri> {
    set c | c in changes :: c.uri
  }

  /** Union of paths, no repeated path, and deletion exactly when the last event of the
      two batches for that path was a delete. */
  lemma MergedBatchMeaning(previous: Batch, next: Batch)
    ensures var merged := MergeBatches(previous, next).changes;
      && PathsOf(merged) == PathsOf(previous.changes) + PathsOf(next.changes)
      && (forall i, j :: 0 <= i < j < |merged| ==> merged[i].uri != merged[j].uri)
      && (forall c :: c in merged ==>
            (c.kind.Deleted? <==> LastKind(previous.changes + next.changes, c.uri) == Some(Deleted)))
  {
    var merged := MergeBatches(previous, next).changes;
    var kinds := MergedKinds(LatestKinds(previous.changes), next.changes);
    ListingSaysMap(kinds);
    MergeKeepsEvents(previous, next, map[]);
    ObserveConcat(previous.changes, next.changes, map[]);
    forall u
      ensures u in PathsOf(merged) <==> u in PathsOf(previous.changes + next.changes)
    {
      ObservedIffListed(merged, u);
      ObservedIffListed(previous.changes + next.changes, u);
    }
    forall c | c in merged
      ensures c.kind.Deleted? <==> LastKind(previous.changes + next.changes, c.uri) == Some(Deleted)
    {
      ObservedIffListed(previous.changes + next.changes, c.uri);
      assert c.uri in kinds.kind && kinds.kind[c.uri] == c.kind;
    }
    assert PathsOf(previous.changes + next.changes) == PathsOf(previous.changes) + PathsOf(next.changes);
  }

  ghost function LastKind(changes: seq<FileChange>, uri: Uri): Option<FileKind> {
    if changes == [] then None
    else if changes[|changes| - 1].uri == uri then Some(changes[|changes| - 1].kind)
    else LastKind(changes[..|changes| - 1], uri)
  }

  lemma {:induction false} ObservedIffListed(changes: seq<FileChange>, uri: Uri)
    ensures uri in Observe(changes, map[]) <==> uri in PathsOf(changes)
    ensures uri in PathsOf(changes) <==> LastKind(changes, uri).Some?
    ensures uri in Observe(changes, map[]) ==>
      Observe(changes, map[])[uri] == (LastKind(changes, uri) == Some(Deleted))
  {
    if changes != [] {
      var init := changes[..|changes| - 1];
      var last := changes[|changes| - 1];
      ObservedIffListed(init, uri);
      assert changes == init + [last];
      assert PathsOf(changes) == PathsOf(init) + {last.uri};
    }
  }

  lemma {:induction false} ObserveConcat(a: seq<FileChange>, b: seq<FileChange>, gone: map<Uri, bool>)
    ensures Observe(a + b, gone) == Observe(b, Observe(a, gone))
  {
    if b == [] {
      assert a + b == a;
    } else {
      assert (a + b)[..|a + b| - 1] == a + b[..|b| - 1];
      ObserveConcat(a, b[..|b| - 1], gone);
    }
  }

  // ----- Merging one queued mutation -----

  lemma MergeIsComposition(previous: Mutation, next: Mutation, k: Knowledge)
    requires previous.Workspace? <==> next.Workspace?
    requires !next.Workspace? ==> previous.uri == next.uri && !previous.Close? && !next.Close?
    ensures Apply(Merge(previous, next), k) == Apply(next, Apply(previous, k))
  {
    if previous.Workspace? {
      MergeKeepsEvents(previous.batch, next.batch, k.gone);
    }
  }

  /** `m` commutes with a run of edits to other documents. */
  ghost predicate Apart(ms: seq<Mutation>, m: Mutation) {
    !m.Workspace? && forall i :: 0 <= i < |ms| ==> !ms[i].Workspace? && ms[i].uri != m.uri
  }

  lemma {:induction false} ApartCommutes(ms: seq<Mutation>, m: Mutation, k: Knowledge)
    requires Apart(ms, m)
    ensures Fold(ms, Apply(m, k)) == Apply(m, Fold(ms, k))
  {
    if ms != [] {
      var init, last := ms[..|ms| - 1], ms[|ms| - 1];
      ApartCommutes(init, m, k);
      EditsCommute(last, m, Fold(init, k));
    }
  }

  lemma EditsCommute(a: Mutation, b: Mutation, k: Knowledge)
    requires !a.Workspace? && !b.Workspace? && a.uri != b.uri
    ensures Apply(a, Apply(b, k)) == Apply(b, Apply(a, k))
  {
    var x, y := Apply(a, Apply(b, k)).documents, Apply(b, Apply(a, k)).documents;
    assert x.Keys == y.Keys;
    assert forall u :: u in x ==> x[u] == y[u];
    assert x == y;
  }

  lemma {:induction false} ApartLifetimes(ms: seq<Mutation>, m: Mutation, l: Lifetime)
    requires Apart(ms, m)
    ensures Lifetimes(ms, Live(m, l)) == Live(m, Lifetimes(ms, l))
  {
    if ms != [] {
      var init, last := ms[..|ms| - 1], ms[|ms| - 1];
      ApartLifetimes(init, m, l);
      var before := Lifetimes(init, l);
      if before.Alive? {
        assert before.open + {m.uri} + {last.uri} == before.open + {last.uri} + {m.uri};
        assert before.open + {m.uri} - {last.uri} == before.open - {last.uri} + {m.uri};
        assert before.open - {m.uri} + {last.uri} == before.open + {last.uri} - {m.uri};
        assert before.open - {m.uri} - {last.uri} == before.open - {last.uri} - {m.uri};
      }
    }
  }

  /** What the backward search guarantees about the record it returns. */
  lemma {:induction false} AbsorberIsSound(pending: seq<Mutation>, m: Mutation)
    ensures var at := Absorber(pending, m); at >= 0 ==>
      && (pending[at].Workspace? <==> m.Workspace?)
      && (m.Workspace? ==> at == |pending| - 1)
      && (!m.Workspace? ==> pending[at].uri == m.uri && !pending[at].Close? && !m.Close?
                            && Apart(pending[at + 1..], m))
  {
    var at := Absorber(pending, m);
    if pending != [] && at >= 0 && at < |pending| - 1 {
      var init := pending[..|pending| - 1];
      AbsorberIsSound(init, m);
      assert pending[at + 1..] == init[at + 1..] + [pending[|pending| - 1]];
    }
  }

  lemma MergeInPlace(a: seq<Mutation>, prior: Mutation, b: seq<Mutation>, m: Mutation, k: Knowledge)
    requires prior.Workspace? <==> m.Workspace?
    requires m.Workspace? ==> b == []
    requires !m.Workspace? ==> prior.uri == m.uri && !prior.Close? && !m.Close? && Apart(b, m)
    ensures Fold(a + ([Merge(prior, m)] + b), k) == Apply(m, Fold(a + ([prior] + b), k))
  {
    var k0 := Fold(a, k);
    FoldAround(a, Merge(prior, m), b, k);
    FoldAround(a, prior, b, k);
    MergeIsComposition(prior, m, k0);
    if !m.Workspace? {
      ApartCommutes(b, m, Apply(prior, k0));
    }
  }

  lemma SplitAt(ms: seq<Mutation>, at: nat, m: Mutation)
    requires at < |ms|
    ensures ms == ms[..at] + ([ms[at]] + ms[at + 1..])
    ensures ms[at := m] == ms[..at] + ([m] + ms[at + 1..])
  {
  }

  /** Coalescing is exact: the queue that absorbed `m` means the old queue followed by
      `m`, from every Worker state. */
  lemma EnqueueMeansAppend(pending: seq<Mutation>, m: Mutation, k: Knowledge)
    ensures Fold(Enqueue(pending, m), k) == Apply(m, Fold(pending, k))
  {
    var at := Absorber(pending, m);
    if at < 0 {
      assert (pending + [m])[..|pending|] == pending;
    } else {
      AbsorberIsSound(pending, m);
      SplitAt(pending, at, Merge(pending[at], m));
      MergeInPlace(pending[..at], pending[at], pending[at + 1..], m, k);
    }
  }

  lemma MergeInPlaceLifetimes(a: seq<Mutation>, prior: Mutation, b: seq<Mutation>, m: Mutation, l: Lifetime)
    requires prior.Workspace? <==> m.Workspace?
    requires m.Workspace? ==> b == []
    requires !m.Workspace? ==> prior.uri == m.uri && !prior.Close? && !m.Close? && Apart(b, m)
    requires Live(m, Lifetimes(a + ([prior] + b), l)).Alive?
    ensures Lifetimes(a + ([Merge(prior, m)] + b), l) == Live(m, Lifetimes(a + ([prior] + b), l))
  {
    var l0 := Lifetimes(a, l);
    LifetimesAround(a, Merge(prior, m), b, l);
    LifetimesAround(a, prior, b, l);
    if !m.Workspace? {
      ApartLifetimes(b, m, Live(prior, l0));
      BrokenStays(b);
      MergeKeepsLifetime(prior, m, l0);
    }
  }

  /** Coalescing never merges two lifetimes of a document: a queue that is legal with `m`
      appended stays legal, with the same documents open at the end. */
  lemma EnqueueKeepsLifetimes(pending: seq<Mutation>, m: Mutation, l: Lifetime)
    requires Live(m, Lifetimes(pending, l)).Alive?
    ensures Lifetimes(Enqueue(pending, m), l) == Live(m, Lifetimes(pending, l))
  {
    var at := Absorber(pending, m);
    if at < 0 {
      assert (pending + [m])[..|pending|] == pending;
    } else {
      AbsorberIsSound(pending, m);
      SplitAt(pending, at, Merge(pending[at], m));
      MergeInPlaceLifetimes(pending[..at], pending[at], pending[at + 1..], m, l);
    }
  }

  lemma MergeKeepsLifetime(previous: Mutation, next: Mutation, l: Lifetime)
    requires !previous.Workspace? && !next.Workspace?
    requires previous.uri == next.uri && !previous.Close? && !next.Close?
    requires Live(next, Live(previous, l)).Alive?
    ensures Live(MergeDocument(previous, next), l) == Live(next, Live(previous, l))
  {
  }

  lemma {:induction false} BrokenStays(ms: seq<Mutation>)
    ensures Lifetimes(ms, Broken) == Broken
  {
    if ms != [] {
      BrokenStays(ms[..|ms| - 1]);
    }
  }

  // ----- Whole runs of the queue -----

  datatype QueueStep = Accept(m: Mutation) | Dequeue

  datatype QueueRun = QueueRun(sent: seq<Mutation>, pending: seq<Mutation>, accepted: seq<Mutation>)

  function Step(r: QueueRun, s: QueueStep): QueueRun {
    match s
    case Accept(m) => r.(pending := Enqueue(r.pending, m), accepted := r.accepted + [m])
    case Dequeue => if r.pending == [] then r
                    else r.(sent := r.sent + [r.pending[0]], pending := r.pending[1..])
  }

  function Steps(ss: seq<QueueStep>): QueueRun {
    if ss == [] then QueueRun([], [], []) else Step(Steps(ss[..|ss| - 1]), ss[|ss| - 1])
  }

  lemma StepKeepsMeaning(r: QueueRun, s: QueueStep, k: Knowledge)
    requires Fold(r.sent + r.pending, k) == Fold(r.accepted, k)
    ensures var n := Step(r, s); Fold(n.sent + n.pending, k) == Fold(n.accepted, k)
  {
    match s
    case Accept(m) =>
      FoldSplits(r.sent, Enqueue(r.pending, m), k);
      FoldSplits(r.sent, r.pending, k);
      EnqueueMeansAppend(r.pending, m, Fold(r.sent, k));
      assert (r.accepted + [m])[..|r.accepted|] == r.accepted;
    case Dequeue =>
      if r.pending != [] {
        assert r.sent + r.pending == (r.sent + [r.pending[0]]) + r.pending[1..];
      }
  }

  /** For any accepts interleaved with any dequeues, what was sent followed by what is
      still queued means the uncoalesced sequence of accepted mutations. */
  lemma {:induction false} CoalescedQueueRefinesPlainQueue(ss: seq<QueueStep>, k: Knowledge)
    ensures var r := Steps(ss); Fold(r.sent + r.pending, k) == Fold(r.accepted, k)
  {
    if ss != [] {
      CoalescedQueueRefinesPlainQueue(ss[..|ss| - 1], k);
      StepKeepsMeaning(Steps(ss[..|ss| - 1]), ss[|ss| - 1], k);
    }
  }

  lemma StepKeepsLifetimes(r: QueueRun, s: QueueStep, l: Lifetime)
    requires Lifetimes(r.sent + r.pending, l) == Lifetimes(r.accepted, l)
    requires Lifetimes(Step(r, s).accepted, l).Alive?
    ensures var n := Step(r, s); Lifetimes(n.sent + n.pending, l) == Lifetimes(n.accepted, l)
  {
    match s
    case Accept(m) =>
      assert (r.accepted + [m])[..|r.accepted|] == r.accepted;
      LifetimesSplit(r.sent, Enqueue(r.pending, m), l);
      LifetimesSplit(r.sent, r.pending, l);
      EnqueueKeepsLifetimes(r.pending, m, Lifetimes(r.sent, l));
    case Dequeue =>
      if r.pending != [] {
        assert r.sent + r.pending == (r.sent + [r.pending[0]]) + r.pending[1..];
      }
  }

  /** ... and if the accepted sequence is legal, so is the sequence the Worker is sent. */
  lemma {:induction false} CoalescedQueueKeepsLifetimes(ss: seq<QueueStep>, l: Lifetime)
    requires Lifetimes(Steps(ss).accepted, l).Alive?
    ensures var r := Steps(ss); Lifetimes(r.sent + r.pending, l) == Lifetimes(r.accepted, l)
  {
    if ss != [] {
      var before, s := Steps(ss[..|ss| - 1]), ss[|ss| - 1];
      if s.Accept? {
        assert (before.accepted + [s.m])[..|before.accepted|] == before.accepted;
      }
      CoalescedQueueKeepsLifetimes(ss[..|ss| - 1], l);
      StepKeepsLifetimes(before, s, l);
    }
  }

  // ----- The codec's rules for a workspace batch -----

  predicate FlagRules(b: Batch) {
    && (b.configurationChanged ==> b.rootDirty)
    && (b.resourceDirty ==> b.resourceChanged)
    && (b.rootDirty || b.resourceChanged || b.changes != [])
  }

  predicate BatchRules(b: Batch) {
    FlagRules(b) && |b.changes| <= MAX_FILE_CHANGES
  }

  /** A merge is refused by the codec only for its number of paths. */
  lemma MergeRefusedOnlyForSize(previous: Batch, next: Batch)
    requires BatchRules(previous) && BatchRules(next)
    ensures BatchRules(MergeBatches(previous, next)) <==>
      |PathsOf(previous.changes) + PathsOf(next.changes)| <= MAX_FILE_CHANGES
  {
    var merged := MergeBatches(previous, next).changes;
    MergedBatchMeaning(previous, next);
    DistinctPathsCount(merged);
    if previous.changes != [] {
      assert previous.changes[0].uri in PathsOf(previous.changes);
      assert merged != [];
    }
  }

  lemma {:induction false} DistinctPathsCount(changes: seq<FileChange>)
    requires forall i, j :: 0 <= i < j < |changes| ==> changes[i].uri != changes[j].uri
    ensures |PathsOf(changes)| == |changes|
  {
    if changes == [] {
      assert PathsOf(changes) == {};
    } else {
      var init, last := changes[..|changes| - 1], changes[|changes| - 1];
      DistinctPathsCount(init);
      assert changes == init + [last];
      assert PathsOf(changes) == PathsOf(init) + {last.uri};
      assert last.uri !in PathsOf(init);
    }
  }
}
