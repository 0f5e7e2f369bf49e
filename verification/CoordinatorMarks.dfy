/** What a drained report says, and under which root. */
module CoordinatorMarks {
  // Nothing is marked, listed or named without an event that calls for it.

  import opened Options
  import opened Mutations
  import opened Coordinator

  predicate ConfiguredAt(s: Setup, e: Incoming, c: string) {
    e.Configured? && e.root < |s.roots| && s.roots[e.root].canonical == c
  }

  /** A path of this root and domain that is not yet listed meets a full table. */
  predicate Overflows(s: Setup, b: Board, e: Incoming, c: string, d: Domain) {
    && e.Touched? && SameKey(s, e, c, e.path) && s.domain(e.path) == d && Counts(s, e)
    && !Coordinator.Listed(b, c, e.path) && |b.pending| >= s.limit
  }

  // ----- Marks -----

  lemma ListedIsFound(b: Board, c: string, path: string)
    ensures Coordinator.Listed(b, c, path) <==> Find(b.pending, c, path, 0) < |b.pending|
  {
    var i := Find(b.pending, c, path, 0);
    if i < |b.pending| { assert b.pending[i] in b.pending; }
  }

  lemma MarkStep(s: Setup, b: Board, e: Incoming, c: string, d: Domain)
    requires Resolves(s, e)
    ensures Dirty(Noted(s, b, e), c, d) <==>
      Dirty(b, c, d) || (d.Sources? && ConfiguredAt(s, e, c)) || Overflows(s, b, e, c, d)
    ensures c in Noted(s, b, e).configuration <==> c in b.configuration || ConfiguredAt(s, e, c)
  {
    if e.Touched? { ListedIsFound(b, s.roots[e.root].canonical, e.path); }
  }

  predicate MarkedBy(s: Setup, events: seq<Incoming>, c: string, d: Domain, k: nat)
    requires k < |events| && AllResolve(s, events)
  {
    || (d.Sources? && ConfiguredAt(s, events[k], c)) || Overflows(s, NotedAll(s, events, k), events[k], c, d)
  }

  /** Whatever events arrive, a root and domain is dirty exactly when its configuration changed
      or one of its paths met a full table, and its configuration counts as changed exactly
      when it did. */
  lemma {:induction false} MarkedExactly(s: Setup, events: seq<Incoming>, n: nat, c: string, d: Domain)
    requires n <= |events| && AllResolve(s, events)
    ensures Dirty(NotedAll(s, events, n), c, d) <==> exists k :: 0 <= k < n && MarkedBy(s, events, c, d, k)
    ensures c in NotedAll(s, events, n).configuration <==>
      exists k :: 0 <= k < n && ConfiguredAt(s, events[k], c)
  {
    if n > 0 {
      MarkedExactly(s, events, n - 1, c, d);
      assert Resolves(s, events[n - 1]);
      MarkStep(s, NotedAll(s, events, n - 1), events[n - 1], c, d);
      assert MarkedBy(s, events, c, d, n - 1) <==>
        (d.Sources? && ConfiguredAt(s, events[n - 1], c))
        || Overflows(s, NotedAll(s, events, n - 1), events[n - 1], c, d);
    }
  }

  // ----- Names -----

  /** The root that the first listed path of a directory came with. */
  function Front(ps: seq<Pending>, n: nat, c: string): Option<nat>
    requires n <= |ps|
  {
    if n == 0 then None
    else if Front(ps, n - 1, c).Some? then Front(ps, n - 1, c)
    else if ps[n - 1].canonical == c then Some(ps[n - 1].root) else None
  }

  function Lead(b: Board, c: string): Option<nat> { Front(b.pending, |b.pending|, c) }

  predicate Concerns(s: Setup, e: Incoming, c: string) {
    Counts(s, e) && !e.Ignored? && e.root < |s.roots| && s.roots[e.root].canonical == c
  }

  /** Event `k` is the first that counts for the directory. */
  predicate IsFirst(s: Setup, events: seq<Incoming>, n: nat, c: string, k: nat)
    requires n <= |events|
  {
    k < n && Concerns(s, events[k], c) && forall j :: 0 <= j < k ==> !Concerns(s, events[j], c)
  }

  lemma {:induction false} FrontOfPrefix(a: seq<Pending>, b: seq<Pending>, n: nat, c: string)
    requires n <= |a| && n <= |b|
    requires forall i :: 0 <= i < n ==> a[i].canonical == b[i].canonical && a[i].root == b[i].root
    ensures Front(a, n, c) == Front(b, n, c)
  {
    if n > 0 { FrontOfPrefix(a, b, n - 1, c); }
  }

  lemma FrontGrows(ps: seq<Pending>, p: Pending, c: string)
    ensures Front(ps + [p], |ps| + 1, c) ==
      if Front(ps, |ps|, c).None? && p.canonical == c then Some(p.root) else Front(ps, |ps|, c)
  {
    FrontOfPrefix(ps, ps + [p], |ps|, c);
  }

  lemma {:induction false} FrontIsKept(ps: seq<Pending>, n: nat, c: string, d: Domain, other: string)
    requires n <= |ps| && other != c
    ensures var few := Keep(ps, n, c, d); Front(few, |few|, other) == Front(ps, n, other)
  {
    if n > 0 {
      var few := Keep(ps, n - 1, c, d);
      FrontIsKept(ps, n - 1, c, d, other);
      if ps[n - 1].canonical == c && ps[n - 1].domain == d {
        assert few + [] == few;
      } else {
        FrontGrows(few, ps[n - 1], other);
      }
    }
  }

  /** Only an event of the directory makes a path of it the first. */
  lemma LeadStep(s: Setup, b: Board, e: Incoming, c: string, t: Board)
    requires Resolves(s, e) && t == Noted(s, b, e) && !Dirty(t, c, Sources) && !Dirty(t, c, Resources)
    ensures !Dirty(b, c, Sources) && !Dirty(b, c, Resources)
    ensures Lead(t, c) == if Lead(b, c).None? && Concerns(s, e, c) then Some(e.root) else Lead(b, c)
  {
    match e
    case Ignored => {}
    case Configured(root) => FrontIsKept(b.pending, |b.pending|, s.roots[root].canonical, Sources, c);
    case Touched(root, path, uri, kind, admitted) =>
      var at, d := s.roots[root].canonical, s.domain(path);
      if Dirty(b, at, d) || (d.Resources? && !admitted) {
      } else {
        TouchedLead(s, b, e, c, t, Find(b.pending, at, path, 0));
      }
  }

  lemma {:induction false} ListedHasFront(ps: seq<Pending>, n: nat, i: nat)
    requires i < n <= |ps|
    ensures Front(ps, n, ps[i].canonical).Some?
  {
    if i < n - 1 { ListedHasFront(ps, n - 1, i); }
  }

  lemma TouchedLead(s: Setup, b: Board, e: Incoming, c: string, t: Board, i: nat)
    requires e.Touched? && Resolves(s, e) && t == Noted(s, b, e) && Counts(s, e)
    requires !Dirty(t, c, Sources) && !Dirty(t, c, Resources)
    requires !Dirty(b, s.roots[e.root].canonical, s.domain(e.path))
    requires i == Find(b.pending, s.roots[e.root].canonical, e.path, 0)
    ensures Lead(t, c) == if Lead(b, c).None? && Concerns(s, e, c) then Some(e.root) else Lead(b, c)
  {
    var at, d := s.roots[e.root].canonical, s.domain(e.path);
    if i < |b.pending| {
      FrontOfPrefix(b.pending, t.pending, |b.pending|, c);
      ListedHasFront(b.pending, |b.pending|, i);
    } else if |b.pending| >= s.limit {
      assert Dirty(t, at, d);
      FrontIsKept(b.pending, |b.pending|, at, d, c);
    } else {
      FrontGrows(b.pending, t.pending[|b.pending|], c);
    }
  }

  /** While a directory is not dirty, its first listed path came with the root of the first
      event that counts for it. */
  lemma {:induction false} LeadExactly(s: Setup, events: seq<Incoming>, n: nat, c: string)
    requires n <= |events| && AllResolve(s, events)
    requires !Dirty(NotedAll(s, events, n), c, Sources) && !Dirty(NotedAll(s, events, n), c, Resources)
    ensures forall k: nat :: IsFirst(s, events, n, c, k) ==> Lead(NotedAll(s, events, n), c) == Some(events[k].root)
    ensures (forall k :: 0 <= k < n ==> !Concerns(s, events[k], c)) ==> Lead(NotedAll(s, events, n), c).None?
  {
    if n > 0 {
      var b, e, t := NotedAll(s, events, n - 1), events[n - 1], NotedAll(s, events, n);
      assert Resolves(s, e);
      LeadStep(s, b, e, c, t);
      LeadExactly(s, events, n - 1, c);
      forall k: nat | IsFirst(s, events, n, c, k) ensures Lead(t, c) == Some(events[k].root) {
        assert k < n - 1 ==> IsFirst(s, events, n - 1, c, k);
      }
    }
  }

  lemma {:induction false} ReportIsLed(s: Setup, b: Board, n: nat, c: string)
    requires n <= |b.pending| && !Dirty(b, c, Sources) && !Dirty(b, c, Resources)
    requires forall i :: 0 <= i < |b.pending| ==> b.pending[i].root < |s.roots|
    ensures ReportTo(s, b, n, c).Some? <==> Front(b.pending, n, c).Some?
    ensures ReportTo(s, b, n, c).Some? ==>
      Front(b.pending, n, c).value < |s.roots|
      && ReportTo(s, b, n, c).value.rootUri == s.roots[Front(b.pending, n, c).value].uri
  {
    if n > 0 { ReportIsLed(s, b, n - 1, c); }
  }

  lemma OwnersAreRoots(s: Setup, events: seq<Incoming>, b: Board)
    requires Sound(s, events, |events|, b)
    ensures forall i :: 0 <= i < |b.pending| ==> b.pending[i].root < |s.roots|
  {
    forall i | 0 <= i < |b.pending| ensures b.pending[i].root < |s.roots| {
      assert b.pending[i] in b.pending;
    }
  }

  lemma FirstNames(s: Setup, events: seq<Incoming>, c: string, b: Board, k: nat)
    requires ValidSetup(s) && AllResolve(s, events) && b == NotedAll(s, events, |events|)
    requires c !in b.source && c !in b.resource && IsFirst(s, events, |events|, c, k)
    ensures ReportFor(s, b, c).Some? && ReportFor(s, b, c).value.rootUri == s.roots[events[k].root].uri
  {
    NoEventIsLost(s, events, |events|);
    OwnersAreRoots(s, events, b);
    LeadExactly(s, events, |events|, c);
    ReportIsLed(s, b, |b.pending|, c);
  }

  lemma NothingToReport(s: Setup, events: seq<Incoming>, c: string, b: Board)
    requires ValidSetup(s) && AllResolve(s, events) && b == NotedAll(s, events, |events|)
    requires c !in b.source && c !in b.resource && forall k :: 0 <= k < |events| ==> !Concerns(s, events[k], c)
    ensures ReportFor(s, b, c).None?
  {
    NoEventIsLost(s, events, |events|);
    OwnersAreRoots(s, events, b);
    LeadExactly(s, events, |events|, c);
    ReportIsLed(s, b, |b.pending|, c);
  }

  /** After any events, a directory that is not dirty is reported exactly when an event
      counted for it, under the URI of the root of the first such event. */
  lemma CleanRootIsNamed(s: Setup, events: seq<Incoming>, c: string, b: Board)
    requires ValidSetup(s) && AllResolve(s, events) && b == NotedAll(s, events, |events|)
    requires c !in b.source && c !in b.resource
    ensures ReportFor(s, b, c).Some? <==> exists k :: 0 <= k < |events| && Concerns(s, events[k], c)
    ensures forall k: nat :: IsFirst(s, events, |events|, c, k) ==>
      ReportFor(s, b, c).Some? && ReportFor(s, b, c).value.rootUri == s.roots[events[k].root].uri
  {
    if k :| 0 <= k < |events| && Concerns(s, events[k], c) {
      var first := FirstOf(s, events, k, c);
      FirstNames(s, events, c, b, first);
    } else {
      NothingToReport(s, events, c, b);
    }
  }

  /** When no two roots are one directory, every report is under its own root's URI. */
  lemma EveryRootIsNamed(s: Setup, events: seq<Incoming>, i: nat, b: Board)
    requires ValidSetup(s) && AllResolve(s, events) && b == NotedAll(s, events, |events|)
    requires DistinctRoots(s) && i < |s.roots| && ReportFor(s, b, s.roots[i].canonical).Some?
    ensures ReportFor(s, b, s.roots[i].canonical).value.rootUri == s.roots[i].uri
  {
    var c := s.roots[i].canonical;
    if c in b.source || c in b.resource {
      DirtyRootIsNamed(s, b, i);
    } else {
      CleanRootIsNamed(s, events, c, b);
      var k :| 0 <= k < |events| && Concerns(s, events[k], c);
      var first := FirstOf(s, events, k, c);
      assert events[first].root == i;
    }
  }

  lemma {:induction false} FirstOf(s: Setup, events: seq<Incoming>, k: nat, c: string) returns (first: nat)
    requires k < |events| && Concerns(s, events[k], c)
    ensures IsFirst(s, events, |events|, c, first)
  {
    if j :| 0 <= j < k && Concerns(s, events[j], c) { first := FirstOf(s, events, j, c); } else { first := k; }
  }

  // ----- Contents -----

  /** A listed change is the last event of one path of the root. */
  ghost predicate Happened(s: Setup, events: seq<Incoming>, c: string, change: FileChange) {
    exists path, j: nat ::
      IsLast(s, events, |events|, c, path, j) && change == FileChange(events[j].uri, events[j].kind)
  }

  lemma {:induction false} ListedHappened(s: Setup, events: seq<Incoming>, b: Board, n: nat, c: string)
    requires n <= |b.pending| && Sound(s, events, |events|, b)
    ensures forall change :: change in ChangesFor(b, n, c) ==> Happened(s, events, c, change)
  {
    if n > 0 {
      ListedHappened(s, events, b, n - 1, c);
      var p := b.pending[n - 1];
      assert p in b.pending && Shows(s, events, |events|, p);
    }
  }

  predicate TouchesResources(s: Setup, e: Incoming, c: string) {
    e.Touched? && SameKey(s, e, c, e.path) && s.domain(e.path).Resources? && Counts(s, e)
  }

  lemma {:induction false} ResourcesChanged(s: Setup, events: seq<Incoming>, b: Board, n: nat, c: string)
    requires n <= |b.pending| && Sound(s, events, |events|, b) && ReportTo(s, b, n, c).Some?
    ensures ReportTo(s, b, n, c).value.batch.resourceChanged ==>
      c in b.resource || exists k :: 0 <= k < |events| && TouchesResources(s, events[k], c)
  {
    if n > 0 {
      var p := b.pending[n - 1];
      if ReportTo(s, b, n - 1, c).Some? { ResourcesChanged(s, events, b, n - 1, c); }
      if Reports(b, p, c) && p.domain.Resources? {
        assert p in b.pending && Shows(s, events, |events|, p);
        var j: nat :| IsLast(s, events, |events|, p.canonical, p.path, j);
        assert TouchesResources(s, events[j], c);
      }
    }
  }

  /** A report invents nothing: each change it lists is the last event of a path of its root,
      and it says that resources changed only when one did. */
  lemma NothingIsInvented(s: Setup, events: seq<Incoming>, c: string)
    requires ValidSetup(s) && AllResolve(s, events)
    ensures var r := ReportFor(s, NotedAll(s, events, |events|), c);
      r.Some? ==>
        && (forall change :: change in r.value.batch.changes ==> Happened(s, events, c, change))
        && (r.value.batch.resourceChanged ==>
              exists k :: 0 <= k < |events| && TouchesResources(s, events[k], c))
  {
    var b := NotedAll(s, events, |events|);
    NoEventIsLost(s, events, |events|);
    ReportHolds(s, b, |b.pending|, c);
    ListedHappened(s, events, b, |b.pending|, c);
    if ReportFor(s, b, c).Some? { ResourcesChanged(s, events, b, |b.pending|, c); }
    if c in b.resource {
      MarkedExactly(s, events, |events|, c, Resources);
      var k :| 0 <= k < |events| && MarkedBy(s, events, c, Resources, k);
      assert TouchesResources(s, events[k], c);
    }
  }
}
