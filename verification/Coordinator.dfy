/** Watched-file events: a bounded table of paths that loses no event. */
module Coordinator {
  // When the table is full a root falls back to "everything may have changed".
  //
  // Path resolution and containment are done before: an event arrives with the root it
  // belongs to.

  import opened Options
  import opened Mutations

  datatype Domain = Sources | Resources

  datatype Root = Root(uri: Uri, canonical: string)

  datatype Pending = Pending(root: nat, canonical: string, path: string, domain: Domain, uri: Uri, kind: FileKind)

  /** The fields of the coordinator; the sets hold canonical root paths. */
  datatype Board = Board(pending: seq<Pending>, source: set<string>, configuration: set<string>, resource: set<string>)

  const Empty := Board([], {}, {}, {})

  /** `admitted`: a resource path that the project uses. */
  datatype Incoming =
    | Ignored
    | Configured(root: nat)
    | Touched(root: nat, path: string, uri: Uri, kind: FileKind, admitted: bool)

  /** What never changes: the roots, the bound, and the domain of each path. */
  datatype Setup = Setup(roots: seq<Root>, limit: nat, domain: string -> Domain)

  predicate ValidSetup(s: Setup) { 1 <= s.limit <= MAX_FILE_CHANGES }

  predicate Resolves(s: Setup, e: Incoming) { e.Ignored? || e.root < |s.roots| }

  predicate AllResolve(s: Setup, events: seq<Incoming>) {
    forall i :: 0 <= i < |events| ==> Resolves(s, events[i])
  }

  // ----- Accepting -----

  predicate Dirty(b: Board, c: string, d: Domain) {
    if d.Sources? then c in b.source else c in b.resource
  }

  function Keep(ps: seq<Pending>, n: nat, c: string, d: Domain): seq<Pending>
    requires n <= |ps|
  {
    if n == 0 then []
    else
      Keep(ps, n - 1, c, d) + if ps[n - 1].canonical == c && ps[n - 1].domain == d then [] else [ps[n - 1]]
  }

  function MarkDirty(b: Board, c: string, d: Domain): Board {
    var kept := Keep(b.pending, |b.pending|, c, d);
    if d.Sources? then b.(pending := kept, source := b.source + {c})
    else b.(pending := kept, resource := b.resource + {c})
  }

  function Find(ps: seq<Pending>, c: string, path: string, from: nat): (i: nat)
    requires from <= |ps|
    ensures from <= i <= |ps| && (i < |ps| ==> ps[i].canonical == c && ps[i].path == path)
    ensures forall j :: from <= j < i ==> ps[j].canonical != c || ps[j].path != path
    decreases |ps| - from
  {
    if from == |ps| || (ps[from].canonical == c && ps[from].path == path) then from else Find(ps, c, path, from + 1)
  }

  function Noted(s: Setup, b: Board, e: Incoming): Board
    requires Resolves(s, e)
  {
    match e
    case Ignored => b
    case Configured(root) =>
      var c := s.roots[root].canonical;
      MarkDirty(b.(configuration := b.configuration + {c}), c, Sources)
    case Touched(root, path, uri, kind, admitted) =>
      var c, d := s.roots[root].canonical, s.domain(path);
      if Dirty(b, c, d) || (d.Resources? && !admitted) then b
      else
        var i := Find(b.pending, c, path, 0);
        if i < |b.pending| then b.(pending := b.pending[i := b.pending[i].(uri := uri, kind := kind)])
        else if |b.pending| >= s.limit then MarkDirty(b, c, d)
        else b.(pending := b.pending + [Pending(root, c, path, d, uri, kind)])
  }

  function NotedAll(s: Setup, events: seq<Incoming>, n: nat): Board
    requires n <= |events| && AllResolve(s, events)
  {
    if n == 0 then Empty else Noted(s, NotedAll(s, events, n - 1), events[n - 1])
  }

  // ----- No event is lost -----

  /** An event that must reach the Worker. */
  predicate Counts(s: Setup, e: Incoming) {
    e.Configured? || (e.Touched? && (s.domain(e.path).Sources? || e.admitted))
  }

  predicate SameKey(s: Setup, e: Incoming, c: string, path: string) {
    e.Touched? && e.root < |s.roots| && s.roots[e.root].canonical == c && e.path == path
  }

  /** Event `j` is the last that counts for the path. */
  predicate IsLast(s: Setup, events: seq<Incoming>, n: nat, c: string, path: string, j: nat)
    requires n <= |events|
  {
    && j < n && SameKey(s, events[j], c, path) && Counts(s, events[j])
    && forall k :: j < k < n && Counts(s, events[k]) ==> !SameKey(s, events[k], c, path)
  }

  /** A pending path shows the last event for it. */
  ghost predicate Shows(s: Setup, events: seq<Incoming>, n: nat, p: Pending)
    requires n <= |events|
  {
    && p.domain == s.domain(p.path) && p.root < |s.roots| && s.roots[p.root].canonical == p.canonical
    && exists j: nat ::
         IsLast(s, events, n, p.canonical, p.path, j) && events[j].uri == p.uri && events[j].kind == p.kind
  }

  predicate Listed(b: Board, c: string, path: string) {
    exists p :: p in b.pending && p.canonical == c && p.path == path
  }

  predicate Covered(s: Setup, b: Board, e: Incoming)
    requires Resolves(s, e)
  {
    match e
    case Ignored => true
    case Configured(root) => s.roots[root].canonical in b.source && s.roots[root].canonical in b.configuration
    case Touched(root, path, _, _, _) =>
      Dirty(b, s.roots[root].canonical, s.domain(path)) || Listed(b, s.roots[root].canonical, path)
  }

  predicate Unique(ps: seq<Pending>) {
    forall i, j :: 0 <= i < j < |ps| ==> ps[i].canonical != ps[j].canonical || ps[i].path != ps[j].path
  }

  /** Keeping drops exactly the marked root and domain, in order. */
  lemma {:induction false} KeepIsFilter(ps: seq<Pending>, n: nat, c: string, d: Domain)
    requires n <= |ps|
    ensures |Keep(ps, n, c, d)| <= n
    ensures forall p :: p in Keep(ps, n, c, d) <==> p in ps[..n] && !(p.canonical == c && p.domain == d)
  {
    if n > 0 {
      KeepIsFilter(ps, n - 1, c, d);
      assert ps[..n] == ps[..n - 1] + [ps[n - 1]];
    }
  }

  lemma {:induction false} KeepIsUnique(ps: seq<Pending>, n: nat, c: string, d: Domain)
    requires n <= |ps| && Unique(ps)
    ensures Unique(Keep(ps, n, c, d))
  {
    if n > 0 {
      KeepIsUnique(ps, n - 1, c, d);
      KeepIsFilter(ps, n - 1, c, d);
      var few := Keep(ps, n - 1, c, d);
      forall i | 0 <= i < |few| ensures few[i].canonical != ps[n - 1].canonical || few[i].path != ps[n - 1].path {
        assert few[i] in few;
        var k :| 0 <= k < n - 1 && ps[k] == few[i];
      }
    }
  }

  // ----- One event -----

  lemma ShowsStays(s: Setup, events: seq<Incoming>, n: nat, p: Pending)
    requires n < |events| && Shows(s, events, n, p)
    requires Counts(s, events[n]) ==> !SameKey(s, events[n], p.canonical, p.path)
    ensures Shows(s, events, n + 1, p)
  {
    var j: nat :| IsLast(s, events, n, p.canonical, p.path, j) && events[j].uri == p.uri && events[j].kind == p.kind;
    assert IsLast(s, events, n + 1, p.canonical, p.path, j);
  }

  lemma MarkDirtyFilters(b: Board, c: string, d: Domain)
    requires Unique(b.pending)
    ensures var t := MarkDirty(b, c, d);
      && |t.pending| <= |b.pending| && Unique(t.pending)
      && forall p :: p in t.pending <==> p in b.pending && !(p.canonical == c && p.domain == d)
  {
    KeepIsFilter(b.pending, |b.pending|, c, d);
    KeepIsUnique(b.pending, |b.pending|, c, d);
    assert b.pending[..|b.pending|] == b.pending;
  }

  /** The event does not concern the paths in `ps`. */
  predicate Elsewhere(s: Setup, e: Incoming, ps: seq<Pending>) {
    forall p :: p in ps ==> !(Counts(s, e) && SameKey(s, e, p.canonical, p.path))
  }

  predicate HasRoot(s: Setup, c: string) {
    exists i :: 0 <= i < |s.roots| && s.roots[i].canonical == c
  }

  ghost predicate Sound(s: Setup, events: seq<Incoming>, n: nat, b: Board)
    requires n <= |events|
  {
    && |b.pending| <= s.limit && b.configuration <= b.source && Unique(b.pending)
    && (forall c :: c in b.source || c in b.resource ==> HasRoot(s, c))
    && forall p :: p in b.pending ==> !Dirty(b, p.canonical, p.domain) && Shows(s, events, n, p)
  }

  ghost predicate Complete(s: Setup, events: seq<Incoming>, n: nat, b: Board)
    requires n <= |events| && AllResolve(s, events)
  {
    forall k :: 0 <= k < n && Counts(s, events[k]) ==> Covered(s, b, events[k])
  }

  lemma SoundStays(s: Setup, events: seq<Incoming>, n: nat, b: Board)
    requires n < |events| && Sound(s, events, n, b) && Elsewhere(s, events[n], b.pending)
    ensures Sound(s, events, n + 1, b)
  {
    forall p | p in b.pending ensures Shows(s, events, n + 1, p) { ShowsStays(s, events, n, p); }
  }

  lemma MarkDirtyIsSound(s: Setup, events: seq<Incoming>, n: nat, b: Board, c: string, d: Domain)
    requires n < |events| && Sound(s, events, n, b) && Elsewhere(s, events[n], MarkDirty(b, c, d).pending)
    requires HasRoot(s, c)
    ensures Sound(s, events, n + 1, MarkDirty(b, c, d))
  {
    var t := MarkDirty(b, c, d);
    MarkDirtyFilters(b, c, d);
    forall p | p in t.pending ensures !Dirty(t, p.canonical, p.domain) && Shows(s, events, n + 1, p) {
      ShowsStays(s, events, n, p);
    }
  }

  lemma MarkDirtyCovers(s: Setup, events: seq<Incoming>, n: nat, b: Board, c: string, d: Domain)
    requires n <= |events| && AllResolve(s, events) && Sound(s, events, n, b) && Complete(s, events, n, b)
    ensures Complete(s, events, n, MarkDirty(b, c, d))
  {
    MarkDirtyFilters(b, c, d);
    forall k | 0 <= k < n && Counts(s, events[k]) ensures Covered(s, MarkDirty(b, c, d), events[k]) {
      CoverageSurvives(s, events, n, b, c, d, events[k]);
    }
  }

  lemma CoverageSurvives(s: Setup, events: seq<Incoming>, n: nat, b: Board, c: string, d: Domain, e: Incoming)
    requires n <= |events| && Sound(s, events, n, b) && Resolves(s, e) && Covered(s, b, e)
    ensures Covered(s, MarkDirty(b, c, d), e)
  {
    var t := MarkDirty(b, c, d);
    if e.Touched? && !Dirty(b, s.roots[e.root].canonical, s.domain(e.path)) {
      var p :| p in b.pending && p.canonical == s.roots[e.root].canonical && p.path == e.path;
      assert Shows(s, events, n, p);
      MarkDirtyFilters(b, c, d);
      assert p in t.pending || (p.canonical == c && p.domain == d);
    }
  }

  // ----- Each kind of event -----

  lemma ConfiguredKeeps(s: Setup, events: seq<Incoming>, n: nat, b: Board, c: string)
    requires n < |events| && AllResolve(s, events) && Sound(s, events, n, b) && Complete(s, events, n, b)
    requires events[n].Configured? && c == s.roots[events[n].root].canonical
    ensures var t := Noted(s, b, events[n]); Sound(s, events, n + 1, t) && Complete(s, events, n + 1, t)
  {
    var dirty, t := MarkDirty(b, c, Sources), Noted(s, b, events[n]);
    MarkDirtyIsSound(s, events, n, b, c, Sources);
    MarkDirtyCovers(s, events, n, b, c, Sources);
    assert t == dirty.(configuration := b.configuration + {c});
    forall k | 0 <= k < n + 1 && Counts(s, events[k]) ensures Covered(s, t, events[k]) {
      if k < n { assert Covered(s, dirty, events[k]); }
    }
  }

  lemma UnchangedKeeps(s: Setup, events: seq<Incoming>, n: nat, b: Board)
    requires n < |events| && AllResolve(s, events) && Sound(s, events, n, b) && Complete(s, events, n, b)
    requires Counts(s, events[n]) ==>
      events[n].Touched? && Dirty(b, s.roots[events[n].root].canonical, s.domain(events[n].path))
    ensures Sound(s, events, n + 1, b) && Complete(s, events, n + 1, b)
  {
    forall p | p in b.pending ensures !(Counts(s, events[n]) && SameKey(s, events[n], p.canonical, p.path)) {
      assert Shows(s, events, n, p) && !Dirty(b, p.canonical, p.domain);
    }
    SoundStays(s, events, n, b);
  }

  lemma OverflowKeeps(s: Setup, events: seq<Incoming>, n: nat, b: Board, c: string, d: Domain)
    requires n < |events| && AllResolve(s, events) && Sound(s, events, n, b) && Complete(s, events, n, b)
    requires events[n].Touched? && c == s.roots[events[n].root].canonical && d == s.domain(events[n].path)
    requires forall p :: p in b.pending ==> p.canonical != c || p.path != events[n].path
    ensures var t := MarkDirty(b, c, d); Sound(s, events, n + 1, t) && Complete(s, events, n + 1, t)
  {
    MarkDirtyFilters(b, c, d);
    MarkDirtyIsSound(s, events, n, b, c, d);
    MarkDirtyCovers(s, events, n, b, c, d);
  }

  lemma AppendKeeps(s: Setup, events: seq<Incoming>, n: nat, b: Board, p: Pending)
    requires n < |events| && AllResolve(s, events) && Sound(s, events, n, b) && Complete(s, events, n, b)
    requires events[n].Touched? && Counts(s, events[n]) && |b.pending| < s.limit
    requires var e := events[n];
      p == Pending(e.root, s.roots[e.root].canonical, e.path, s.domain(e.path), e.uri, e.kind)
    requires !Dirty(b, p.canonical, p.domain)
    requires forall q :: q in b.pending ==> q.canonical != p.canonical || q.path != p.path
    ensures var t := b.(pending := b.pending + [p]); Sound(s, events, n + 1, t) && Complete(s, events, n + 1, t)
  {
    var t := b.(pending := b.pending + [p]);
    SoundStays(s, events, n, b);
    assert IsLast(s, events, n + 1, p.canonical, p.path, n);
    assert p in t.pending;
    forall i, j | 0 <= i < j < |t.pending|
      ensures t.pending[i].canonical != t.pending[j].canonical || t.pending[i].path != t.pending[j].path
    {
      if j == |b.pending| { assert b.pending[i] in b.pending; }
    }
    forall k | 0 <= k < n + 1 && Counts(s, events[k]) ensures Covered(s, t, events[k]) {
      if k < n {
        assert Covered(s, b, events[k]);
        forall q | q in b.pending ensures q in t.pending {}
      }
    }
  }

  lemma UpdateKeeps(s: Setup, events: seq<Incoming>, n: nat, b: Board, i: nat)
    requires n < |events| && AllResolve(s, events) && Sound(s, events, n, b) && Complete(s, events, n, b)
    requires events[n].Touched? && Counts(s, events[n]) && i < |b.pending|
    requires b.pending[i].canonical == s.roots[events[n].root].canonical && b.pending[i].path == events[n].path
    ensures var t := b.(pending := b.pending[i := b.pending[i].(uri := events[n].uri, kind := events[n].kind)]);
      Sound(s, events, n + 1, t) && Complete(s, events, n + 1, t)
  {
    var e := events[n];
    var old_, new_ := b.pending[i], b.pending[i].(uri := e.uri, kind := e.kind);
    var t := b.(pending := b.pending[i := new_]);
    assert old_ in b.pending && Shows(s, events, n, old_) && new_ == t.pending[i];
    assert IsLast(s, events, n + 1, new_.canonical, new_.path, n);
    assert Shows(s, events, n + 1, new_);
    forall p | p in t.pending && p != new_ ensures !Dirty(t, p.canonical, p.domain) && Shows(s, events, n + 1, p) {
      OthersStay(b.pending, i, new_, p);
      ShowsStays(s, events, n, p);
    }
    forall k | 0 <= k < n + 1 && Counts(s, events[k]) ensures Covered(s, t, events[k]) {
      UpdateCovers(s, b, i, new_, events[k]);
    }
  }

  lemma OthersStay(ps: seq<Pending>, i: nat, new_: Pending, p: Pending)
    requires i < |ps| && Unique(ps) && p in ps[i := new_] && p != new_
    ensures p in ps && (p.canonical != ps[i].canonical || p.path != ps[i].path)
  {
    var after := ps[i := new_];
    var j :| 0 <= j < |after| && after[j] == p;
    assert ps[j] == p;
  }

  lemma UpdateCovers(s: Setup, b: Board, i: nat, p: Pending, e: Incoming)
    requires i < |b.pending| && Resolves(s, e) && p.canonical == b.pending[i].canonical && p.path == b.pending[i].path
    requires Covered(s, b, e) || (e.Touched? && SameKey(s, e, p.canonical, p.path))
    ensures Covered(s, b.(pending := b.pending[i := p]), e)
  {
    var t := b.(pending := b.pending[i := p]);
    assert t.pending[i] == p && p in t.pending;
    if e.Touched? && Covered(s, b, e) && !Dirty(b, s.roots[e.root].canonical, s.domain(e.path)) {
      var q :| q in b.pending && q.canonical == s.roots[e.root].canonical && q.path == e.path;
      var j :| 0 <= j < |b.pending| && b.pending[j] == q;
      assert j != i ==> t.pending[j] == q && q in t.pending;
    }
  }

  lemma AcceptKeeps(s: Setup, events: seq<Incoming>, n: nat, b: Board, t: Board)
    requires n < |events| && AllResolve(s, events) && Sound(s, events, n, b) && Complete(s, events, n, b)
    requires t == Noted(s, b, events[n])
    ensures Sound(s, events, n + 1, t) && Complete(s, events, n + 1, t)
  {
    var e := events[n];
    assert Resolves(s, e);
    match e
    case Ignored => UnchangedKeeps(s, events, n, b);
    case Configured(root) => ConfiguredKeeps(s, events, n, b, s.roots[root].canonical);
    case Touched(root, path, uri, kind, admitted) =>
      var c, d := s.roots[root].canonical, s.domain(path);
      if Dirty(b, c, d) || (d.Resources? && !admitted) {
        UnchangedKeeps(s, events, n, b);
      } else {
        var i := Find(b.pending, c, path, 0);
        if i < |b.pending| {
          UpdateKeeps(s, events, n, b, i);
        } else if |b.pending| >= s.limit {
          OverflowKeeps(s, events, n, b, c, d);
        } else {
          AppendKeeps(s, events, n, b, Pending(root, c, path, d, uri, kind));
        }
      }
  }

  /** Whatever events arrive, the table stays within its bound, shows the last event of each
      path it lists, and every event that counts is listed or covered by a dirty mark. */
  lemma {:induction false} NoEventIsLost(s: Setup, events: seq<Incoming>, n: nat)
    requires ValidSetup(s) && n <= |events| && AllResolve(s, events)
    ensures Sound(s, events, n, NotedAll(s, events, n)) && Complete(s, events, n, NotedAll(s, events, n))
  {
    if n == 0 {
      NothingIsSound(s, events);
    } else {
      NoEventIsLost(s, events, n - 1);
      AcceptKeeps(s, events, n - 1, NotedAll(s, events, n - 1), NotedAll(s, events, n));
    }
  }

  lemma NothingIsSound(s: Setup, events: seq<Incoming>)
    requires AllResolve(s, events)
    ensures Sound(s, events, 0, Empty) && Complete(s, events, 0, Empty)
  {
  }

  // ----- Draining -----

  datatype Report = Report(rootUri: Uri, batch: Batch)

  /** The last root with this canonical path among the first `n`. */
  function LastRoot(roots: seq<Root>, n: nat, c: string): Option<Uri>
    requires n <= |roots|
  {
    if n == 0 then None
    else if roots[n - 1].canonical == c then Some(roots[n - 1].uri)
    else LastRoot(roots, n - 1, c)
  }

  predicate Reports(b: Board, p: Pending, c: string) { p.canonical == c && !Dirty(b, c, p.domain) }

  function ChangesFor(b: Board, n: nat, c: string): seq<FileChange>
    requires n <= |b.pending|
  {
    if n == 0 then []
    else
      ChangesFor(b, n - 1, c)
      + if Reports(b, b.pending[n - 1], c) then [FileChange(b.pending[n - 1].uri, b.pending[n - 1].kind)] else []
  }

  function DirtyReport(s: Setup, b: Board, n: nat, c: string): Option<Report>
    requires n <= |s.roots|
  {
    var uri := LastRoot(s.roots, n, c);
    if uri.None? || (c !in b.source && c !in b.resource) then None
    else Some(Report(uri.value, Batch(c in b.source, c in b.configuration, c in b.resource, c in b.resource, [])))
  }

  function Added(s: Setup, r: Option<Report>, p: Pending): Report {
    var base :=
      if r.Some? then r.value
      else Report(if p.root < |s.roots| then s.roots[p.root].uri else "", Batch(false, false, false, false, []));
    base.(batch := base.batch.(resourceChanged := base.batch.resourceChanged || p.domain.Resources?,
                               changes := base.batch.changes + [FileChange(p.uri, p.kind)]))
  }

  /** The report on one root after the first `n` pending paths. */
  function ReportTo(s: Setup, b: Board, n: nat, c: string): Option<Report>
    requires n <= |b.pending|
  {
    if n == 0 then DirtyReport(s, b, |s.roots|, c)
    else
      var r := ReportTo(s, b, n - 1, c);
      if Reports(b, b.pending[n - 1], c) then Some(Added(s, r, b.pending[n - 1])) else r
  }

  function ReportFor(s: Setup, b: Board, c: string): Option<Report> { ReportTo(s, b, |b.pending|, c) }

  function Get(m: map<string, Report>, c: string): Option<Report> { if c in m then Some(m[c]) else None }

  method DrainBoard(s: Setup, b: Board) returns (reports: map<string, Report>)
    ensures forall c :: Get(reports, c) == ReportFor(s, b, c)
  {
    reports := map[];
    for n := 0 to |s.roots|
      invariant forall c :: Get(reports, c) == DirtyReport(s, b, n, c)
    {
      var root := s.roots[n];
      var rootDirty, resourceDirty := root.canonical in b.source, root.canonical in b.resource;
      ghost var before := reports;
      if rootDirty || resourceDirty {
        reports := reports[root.canonical := Report(root.uri,
          Batch(rootDirty, root.canonical in b.configuration, resourceDirty, resourceDirty, []))];
      }
      ghost var next := n + 1;
      forall c ensures Get(reports, c) == DirtyReport(s, b, next, c) {
        assert Get(before, c) == DirtyReport(s, b, n, c);
      }
    }
    for n := 0 to |b.pending|
      invariant forall c :: Get(reports, c) == ReportTo(s, b, n, c)
    {
      var p := b.pending[n];
      if !Dirty(b, p.canonical, p.domain) {
        reports := reports[p.canonical := Added(s, Get(reports, p.canonical), p)];
      }
    }
  }

  // ----- What a drain delivers -----

  lemma {:induction false} LastRootFound(roots: seq<Root>, n: nat, c: string, i: nat)
    requires i < n <= |roots| && roots[i].canonical == c
    ensures LastRoot(roots, n, c).Some?
  {
    if i < n - 1 && roots[n - 1].canonical != c { LastRootFound(roots, n - 1, c, i); }
  }

  /** The flags of a report, and the paths it lists. */
  lemma {:induction false} ReportHolds(s: Setup, b: Board, n: nat, c: string)
    requires n <= |b.pending|
    requires c in b.source || c in b.resource ==> HasRoot(s, c)
    ensures c in b.source || c in b.resource ==> ReportTo(s, b, n, c).Some?
    ensures ReportTo(s, b, n, c).None? ==> ChangesFor(b, n, c) == []
    ensures ReportTo(s, b, n, c).Some? ==>
      var batch := ReportTo(s, b, n, c).value.batch;
      && batch.rootDirty == (c in b.source) && batch.resourceDirty == (c in b.resource)
      && batch.configurationChanged == (c in b.configuration && (c in b.source || c in b.resource))
      && (batch.resourceDirty ==> batch.resourceChanged)
      && batch.changes == ChangesFor(b, n, c)
      && (batch.rootDirty || batch.resourceDirty || batch.changes != [])
  {
    if n == 0 {
      if c in b.source || c in b.resource {
        var i :| 0 <= i < |s.roots| && s.roots[i].canonical == c;
        LastRootFound(s.roots, |s.roots|, c, i);
      }
    } else {
      ReportHolds(s, b, n - 1, c);
    }
  }

  lemma {:induction false} PendingIsReported(s: Setup, b: Board, n: nat, i: nat, c: string)
    requires i < n <= |b.pending| && Reports(b, b.pending[i], c)
    ensures FileChange(b.pending[i].uri, b.pending[i].kind) in ChangesFor(b, n, c)
    ensures ReportTo(s, b, n, c).Some?
    ensures b.pending[i].domain.Resources? ==> ReportTo(s, b, n, c).value.batch.resourceChanged
  {
    if i < n - 1 { PendingIsReported(s, b, n - 1, i, c); }
  }

  lemma {:induction false} ChangesAreFew(b: Board, n: nat, c: string)
    requires n <= |b.pending|
    ensures |ChangesFor(b, n, c)| <= n
  {
    if n > 0 { ChangesAreFew(b, n - 1, c); }
  }

  /** How the report on a root accounts for an event. */
  predicate Delivered(s: Setup, events: seq<Incoming>, e: Incoming, r: Option<Report>)
    requires Resolves(s, e)
  {
    match e
    case Ignored => true
    case Configured(_) => r.Some? && r.value.batch.rootDirty && r.value.batch.configurationChanged
    case Touched(root, path, _, _, _) =>
      && r.Some?
      && ((s.domain(path).Sources? && r.value.batch.rootDirty)
          || (s.domain(path).Resources? && r.value.batch.resourceDirty)
          || ((s.domain(path).Resources? ==> r.value.batch.resourceChanged)
              && exists j :: && 0 <= j < |events| && IsLast(s, events, |events|, s.roots[root].canonical, path, j)
                             && FileChange(events[j].uri, events[j].kind) in r.value.batch.changes))
  }

  /** Whatever events arrive, the next drain accounts for every one that counts: it marks
      the root and domain dirty, or lists the path with its last kind. */
  lemma DrainIsLossless(s: Setup, events: seq<Incoming>, k: nat)
    requires ValidSetup(s) && AllResolve(s, events) && k < |events| && Counts(s, events[k])
    ensures var b := NotedAll(s, events, |events|);
      Delivered(s, events, events[k], ReportFor(s, b, s.roots[events[k].root].canonical))
  {
    var b, e := NotedAll(s, events, |events|), events[k];
    var c := s.roots[e.root].canonical;
    NoEventIsLost(s, events, |events|);
    assert Covered(s, b, e);
    ReportHolds(s, b, |b.pending|, c);
    if e.Touched? && !Dirty(b, c, s.domain(e.path)) {
      var p :| p in b.pending && p.canonical == c && p.path == e.path;
      ListedIsDelivered(s, events, b, p, e);
    }
  }

  lemma ListedIsDelivered(s: Setup, events: seq<Incoming>, b: Board, p: Pending, e: Incoming)
    requires Sound(s, events, |events|, b) && p in b.pending && e.Touched? && Resolves(s, e)
    requires p.canonical == s.roots[e.root].canonical && p.path == e.path
    ensures Delivered(s, events, e, ReportFor(s, b, p.canonical))
  {
    var i :| 0 <= i < |b.pending| && b.pending[i] == p;
    assert Shows(s, events, |events|, p);
    var j: nat :| IsLast(s, events, |events|, p.canonical, p.path, j) && events[j].uri == p.uri
      && events[j].kind == p.kind;
    PendingIsReported(s, b, |b.pending|, i, p.canonical);
    ReportHolds(s, b, |b.pending|, p.canonical);
  }

  /** Every batch drained meets the codec's flag, non-emptiness and count rules. */
  lemma DrainedBatchesMeetCodec(s: Setup, events: seq<Incoming>, c: string)
    requires ValidSetup(s) && AllResolve(s, events)
    ensures var r := ReportFor(s, NotedAll(s, events, |events|), c);
      r.Some? ==> BatchRules(r.value.batch)
  {
    var b := NotedAll(s, events, |events|);
    NoEventIsLost(s, events, |events|);
    ReportHolds(s, b, |b.pending|, c);
    ChangesAreFew(b, |b.pending|, c);
  }

  // ----- Roots that are one directory -----

  predicate DistinctRoots(s: Setup) {
    forall i, j :: 0 <= i < j < |s.roots| ==> s.roots[i].canonical != s.roots[j].canonical
  }

  lemma {:induction false} OnlyRootIsLast(s: Setup, n: nat, i: nat)
    requires DistinctRoots(s) && i < n <= |s.roots|
    ensures LastRoot(s.roots, n, s.roots[i].canonical) == Some(s.roots[i].uri)
  {
    if i < n - 1 { OnlyRootIsLast(s, n - 1, i); }
  }

  lemma {:induction false} ReportKeepsRoot(s: Setup, b: Board, n: nat, c: string)
    requires n <= |b.pending| && DirtyReport(s, b, |s.roots|, c).Some?
    ensures ReportTo(s, b, n, c).Some? && LastRoot(s.roots, |s.roots|, c) == Some(ReportTo(s, b, n, c).value.rootUri)
  {
    if n > 0 { ReportKeepsRoot(s, b, n - 1, c); }
  }

  /** A dirty root is reported under the URI of the last root with its canonical path: the
      root of the event exactly when that is the same URI, as it always is when no two
      roots are one directory. */
  lemma DirtyRootIsNamed(s: Setup, b: Board, i: nat)
    requires i < |s.roots| && (s.roots[i].canonical in b.source || s.roots[i].canonical in b.resource)
    ensures var c := s.roots[i].canonical;
      && ReportFor(s, b, c).Some?
      && (ReportFor(s, b, c).value.rootUri == s.roots[i].uri <==>
        LastRoot(s.roots, |s.roots|, c) == Some(s.roots[i].uri))
      && (DistinctRoots(s) ==> ReportFor(s, b, c).value.rootUri == s.roots[i].uri)
  {
    var c := s.roots[i].canonical;
    LastRootFound(s.roots, |s.roots|, c, i);
    ReportKeepsRoot(s, b, |b.pending|, c);
    if DistinctRoots(s) { OnlyRootIsLast(s, |s.roots|, i); }
  }

  /** Two roots that are one directory: an event of the first is reported under the second. */
  lemma AliasedRootIsMisnamed(domain: string -> Domain)
    ensures var s := Setup([Root("a", "/x"), Root("b", "/x")], 1, domain);
      var b := Noted(s, Empty, Configured(0));
      ReportFor(s, b, "/x").Some? && ReportFor(s, b, "/x").value.rootUri == "b"
  {
    var s := Setup([Root("a", "/x"), Root("b", "/x")], 1, domain);
    var b := Noted(s, Empty, Configured(0));
    ReportKeepsRoot(s, b, |b.pending|, "/x");
  }

  // ----- The object -----

  class WorkspaceFileChangeCoordinator {
    const setup: Setup
    var pending: seq<Pending>
    var source: set<string>
    var configuration: set<string>
    var resource: set<string>

    function View(): Board
      reads this
    {
      Board(pending, source, configuration, resource)
    }

    constructor (setup: Setup)
      ensures this.setup == setup && View() == Empty
    {
      this.setup, pending, source, configuration, resource := setup, [], {}, {}, {};
    }

    method MarkRootDirty(c: string, d: Domain)
      modifies this
      ensures View() == MarkDirty(old(View()), c, d)
    {
      if d.Sources? { source := source + {c}; } else { resource := resource + {c}; }
      var kept: seq<Pending> := [];
      for n := 0 to |pending|
        invariant kept == Keep(pending, n, c, d)
        invariant pending == old(pending) && configuration == old(configuration)
        invariant source == (if d.Sources? then old(source) + {c} else old(source))
        invariant resource == (if d.Sources? then old(resource) else old(resource) + {c})
      {
        if pending[n].canonical != c || pending[n].domain != d { kept := kept + [pending[n]]; }
      }
      pending := kept;
    }

    method AcceptOne(e: Incoming)
      requires Resolves(setup, e)
      modifies this
      ensures View() == Noted(setup, old(View()), e)
    {
      match e {
        case Ignored =>
        case Configured(root) =>
          var c := setup.roots[root].canonical;
          configuration := configuration + {c};
          MarkRootDirty(c, Sources);
        case Touched(root, path, uri, kind, admitted) =>
          var c, d := setup.roots[root].canonical, setup.domain(path);
          if (if d.Sources? then c in source else c in resource) { return; }
          if d.Resources? && !admitted { return; }
          var i := Find(pending, c, path, 0);
          if i < |pending| {
            pending := pending[i := pending[i].(uri := uri, kind := kind)];
          } else if |pending| >= setup.limit {
            MarkRootDirty(c, d);
          } else {
            pending := pending + [Pending(root, c, path, d, uri, kind)];
          }
      }
    }

    method Drain() returns (reports: map<string, Report>)
      modifies this
      ensures View() == Empty
      ensures forall c :: Get(reports, c) == ReportFor(setup, old(View()), c)
    {
      reports := DrainBoard(setup, Board(pending, source, configuration, resource));
      pending, source, configuration, resource := [], {}, {}, {};
    }
  }
}
