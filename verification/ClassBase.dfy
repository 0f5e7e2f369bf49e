/** The class-base resolver and its three modes. */
module ClassBase {
  // A bounded walk leads along imports and re-exports from the class at a position to
  // the declaration of its base.

  import opened Options
  import opened RelativeSources
  import opened ReferenceBindings
  import opened ClassFacts
  import opened ClassWalk

  const MAX_DOCUMENTS: nat := 128

  /** `availability` is caller-owned evidence about documents and takes precedence. */
  datatype Mode = Mode(explicitOnly: bool, availability: Option<map<string, bool>>)

  function UrisOf(documents: seq<ClassDocument>): set<string> { set d | d in documents :: d.uri }

  // ----- Lookup -----

  /** How many of the first `n` documents are `uri`. */
  function Count(documents: seq<ClassDocument>, n: nat, uri: string): nat
    requires n <= |documents|
  {
    if n == 0 then 0 else Count(documents, n - 1, uri) + if documents[n - 1].uri == uri then 1 else 0
  }

  /** The last of the first `n` documents that is `uri`. */
  function Find(documents: seq<ClassDocument>, n: nat, uri: string): (d: Option<ClassDocument>)
    requires n <= |documents|
    ensures d.Some? <==> exists i :: 0 <= i < n && documents[i].uri == uri
    ensures d.Some? ==> d.value in documents && d.value.uri == uri
  {
    if n == 0 then None
    else if documents[n - 1].uri == uri then Some(documents[n - 1])
    else Find(documents, n - 1, uri)
  }

  /** The document, when the input names it exactly once. */
  function Lookup(documents: seq<ClassDocument>, uri: string): (d: Option<ClassDocument>)
    ensures d.Some? ==> d.value in documents && d.value.uri == uri
  {
    if Count(documents, |documents|, uri) == 1 then Find(documents, |documents|, uri) else None
  }

  predicate Usable(d: ClassDocument) {
    d.heritage.Some? && d.heritage.value.complete && d.provenance.Some? && d.provenance.value.supported
  }

  // ----- One hop -----

  function ClassesNamed(classes: seq<Class>, n: nat, name: string): (r: seq<Class>)
    requires n <= |classes|
    ensures forall i :: 0 <= i < |r| ==> r[i].name == name && r[i] in classes
  {
    if n == 0 then []
    else ClassesNamed(classes, n - 1, name) + if classes[n - 1].name == name then [classes[n - 1]] else []
  }

  function Exported(classes: seq<Class>, n: nat, exports: seq<Range>): (r: seq<Class>)
    requires n <= |classes|
    ensures forall i :: 0 <= i < |r| ==> r[i] in classes && r[i].nameRange in exports
  {
    if n == 0 then []
    else Exported(classes, n - 1, exports) + if classes[n - 1].nameRange in exports then [classes[n - 1]] else []
  }

  function BindingsNamed(bindings: seq<Binding>, n: nat, kind: Kind, name: string): seq<Binding>
    requires n <= |bindings|
  {
    if n == 0 then []
    else
      BindingsNamed(bindings, n - 1, kind, name)
      + if bindings[n - 1].kind == kind && bindings[n - 1].localName == name then [bindings[n - 1]] else []
  }

  /** The candidates among the first `n` with evidence of presence. */
  function Present(candidates: seq<string>, n: nat, availability: map<string, bool>): seq<string>
    requires n <= |candidates|
  {
    if n == 0 then []
    else
      Present(candidates, n - 1, availability)
      + if candidates[n - 1] in availability && availability[candidates[n - 1]] then [candidates[n - 1]] else []
  }

  /** The document a binding comes from, as far as the mode allows to say. */
  function SourceOf(mode: Mode, uris: set<string>, b: Binding): Option<string> {
    var candidates := Candidates(b.uri, b.specifier);
    if candidates.None? then None
    else if mode.availability.Some? then OnlyPresent(candidates.value, mode.availability.value)
    else if mode.explicitOnly && |candidates.value| != 1 then None
    else UniqueRelative(b, uris)
  }

  /** The only candidate present, when there is evidence about all of them. */
  function OnlyPresent(candidates: seq<string>, availability: map<string, bool>): Option<string> {
    var present := Present(candidates, |candidates|, availability);
    if (forall c :: c in candidates ==> c in availability) && |present| == 1 then Some(present[0]) else None
  }

  function UniqueRelative(b: Binding, uris: set<string>): Option<string> {
    var r := ResolvedRelative(b, uris);
    if r.resolution == Unique then r.source else None
  }

  /** What the document says about a name: a class of its own, or where to look next. */
  function HopIn(d: ClassDocument, mode: Mode, uris: set<string>, name: string, exported: bool): Hop {
    if !Usable(d) then Stuck
    else
      var named := ClassesNamed(d.heritage.value.classes, |d.heritage.value.classes|, name);
      var imports := BindingsNamed(d.bindings, |d.bindings|, Import, name);
      var classes := if exported then Exported(named, |named|, d.provenance.value.directExports) else named;
      var bindings := if exported then BindingsNamed(d.bindings, |d.bindings|, ReExport, name) else imports;
      if |named| + |imports| > 1 || |classes| + |bindings| != 1 then Stuck
      else if |classes| == 1 then Declares(classes[0])
      else
        var source := SourceOf(mode, uris, bindings[0]);
        if source.None? then Stuck else Continues(Stop(source.value, bindings[0].importedName, true))
  }

  function HopAt(documents: seq<ClassDocument>, mode: Mode, s: Stop): Hop {
    var d := Lookup(documents, s.uri);
    if d.None? then Stuck else HopIn(d.value, mode, UrisOf(documents), s.name, s.exported)
  }

  function Hops(documents: seq<ClassDocument>, mode: Mode): Stop -> Hop {
    (s: Stop) => HopAt(documents, mode, s)
  }

  // ----- The walk -----

  class Resolver {
    const documents: seq<ClassDocument>
    const mode: Mode
    var visited: set<Stop>
    var support: set<string>

    constructor (documents: seq<ClassDocument>, mode: Mode)
      ensures this.documents == documents && this.mode == mode && visited == {} && support == {}
    {
      this.documents, this.mode, visited, support := documents, mode, {}, {};
    }

    method Resolve(s: Stop) returns (r: ClassBaseBinding)
      modifies this
      decreases MAX_STOPS - |visited|
      ensures r == Walk(Hops(documents, mode), old(visited), old(support), s)
      ensures r.Resolved? ==> r.support == support
    {
      if |visited| >= MAX_STOPS || s in visited { return Unknown; }
      visited := visited + {s};
      var found := Lookup(documents, s.uri);
      if found.None? || !Usable(found.value) { return Unknown; }
      var d := found.value;
      var named := ClassesNamed(d.heritage.value.classes, |d.heritage.value.classes|, s.name);
      var imports := BindingsNamed(d.bindings, |d.bindings|, Import, s.name);
      if |named| + |imports| > 1 { return Unknown; }
      support := support + {s.uri};
      var classes := if s.exported then Exported(named, |named|, d.provenance.value.directExports) else named;
      var bindings := BindingsNamed(d.bindings, |d.bindings|, if s.exported then ReExport else Import, s.name);
      if |classes| + |bindings| != 1 { return Unknown; }
      if |classes| == 1 { return Resolved(s.uri, classes[0].name, classes[0].nameRange, support); }
      var source := FindSource(bindings[0]);
      if source.None? { return Unknown; }
      r := Resolve(Stop(source.value, bindings[0].importedName, true));
    }

    method FindSource(b: Binding) returns (r: Option<string>)
      ensures r == SourceOf(mode, UrisOf(documents), b)
    {
      var candidates := RelativeSourceUriCandidates(b.uri, b.specifier);
      if candidates.None? { return None; }
      if mode.availability.Some? {
        r := FindPresent(candidates.value, mode.availability.value);
      } else if mode.explicitOnly && |candidates.value| != 1 {
        r := None;
      } else {
        r := FindUnique(b, UrisOf(documents));
      }
    }
  }

  method FindUnique(b: Binding, uris: set<string>) returns (r: Option<string>)
    ensures r == UniqueRelative(b, uris)
  {
    var slice := new Binding[1](_ => b);
    ResolveReferenceBindingSources(slice, uris);
    r := if slice[0].resolution == Unique then slice[0].source else None;
  }

  method FindPresent(candidates: seq<string>, availability: map<string, bool>) returns (r: Option<string>)
    ensures r == OnlyPresent(candidates, availability)
  {
    var present: seq<string> := [];
    for i := 0 to |candidates|
      invariant present == Present(candidates, i, availability)
      invariant forall k :: 0 <= k < i ==> candidates[k] in availability
    {
      if candidates[i] !in availability { return None; }
      if availability[candidates[i]] { present := present + [candidates[i]]; }
    }
    r := if |present| == 1 then Some(present[0]) else None;
  }

  // ----- Asking -----

  predicate NamedAt(c: Class, at: Position) {
    AtMost(c.nameRange.start, at) && Before(at, c.nameRange.end)
  }

  function ClassesAt(classes: seq<Class>, n: nat, at: Position): (r: seq<Class>)
    requires n <= |classes|
    ensures forall i :: 0 <= i < |r| ==> r[i] in classes && NamedAt(r[i], at)
  {
    if n == 0 then [] else ClassesAt(classes, n - 1, at) + if NamedAt(classes[n - 1], at) then [classes[n - 1]] else []
  }

  /** The only class named at the position in a usable document. */
  function Asked(documents: seq<ClassDocument>, uri: string, at: Position): Option<Class> {
    var d := Lookup(documents, uri);
    if d.None? || !Usable(d.value) then None
    else
      var classes := ClassesAt(d.value.heritage.value.classes, |d.value.heritage.value.classes|, at);
      if |classes| == 1 then Some(classes[0]) else None
  }

  function Answer(documents: seq<ClassDocument>, mode: Mode, uri: string, at: Position): ClassBaseBinding {
    var asked := Asked(documents, uri, at);
    if asked.None? then Unknown
    else if asked.value.base.None? then NoBase
    else Walk(Hops(documents, mode), {}, {}, Stop(uri, asked.value.base.value.name, false))
  }

  method ResolveDocuments(documents: seq<ClassDocument>, mode: Mode, uri: string, at: Position)
    returns (r: ClassBaseBinding)
    ensures r == Answer(documents, mode, uri, at)
  {
    var asked := Asked(documents, uri, at);
    if asked.None? { return Unknown; }
    if asked.value.base.None? { return NoBase; }
    var resolver := new Resolver(documents, mode);
    r := resolver.Resolve(Stop(uri, asked.value.base.value.name, false));
  }

  /** Resolution over a fresh, caller-complete set of sources. */
  function FreshAnswer(sources: seq<ClassDocument>, uri: string, at: Position): ClassBaseBinding {
    Answer(sources, Mode(false, None), uri, at)
  }

  // ----- What an answer rests on -----

  /** Support comes from the supplied documents and includes the asking and the declaring
      document; the declaration is a class of the declaring document. */
  lemma SupportIsGrounded(documents: seq<ClassDocument>, mode: Mode, uri: string, at: Position)
    requires Answer(documents, mode, uri, at).Resolved?
    ensures var r := Answer(documents, mode, uri, at);
      && r.support <= UrisOf(documents) && uri in r.support && r.uri in r.support
      && exists d, c :: && d in documents && d.uri == r.uri && Usable(d) && c in d.heritage.value.classes
                        && c.name == r.name && c.nameRange == r.nameRange
  {
    var s := Stop(uri, Asked(documents, uri, at).value.base.value.name, false);
    var hop := Hops(documents, mode);
    var stops := WalkLeavesTrail(hop, {}, {}, s);
    WalkFollowsTrail(hop, stops);
    HopsStayInside(documents, mode);
    TrailStaysInside(hop, stops, |stops|, UrisOf(documents));
    DeclarationIsThere(documents, mode, stops[|stops| - 1]);
  }

  lemma HopsStayInside(documents: seq<ClassDocument>, mode: Mode)
    ensures forall s :: !Hops(documents, mode)(s).Stuck? ==> s.uri in UrisOf(documents)
  {
    forall s | !Hops(documents, mode)(s).Stuck? ensures s.uri in UrisOf(documents) {
      assert Lookup(documents, s.uri).Some?;
    }
  }

  lemma DeclarationIsThere(documents: seq<ClassDocument>, mode: Mode, s: Stop)
    requires HopAt(documents, mode, s).Declares?
    ensures exists d, c :: && d in documents && d.uri == s.uri && Usable(d) && c in d.heritage.value.classes
                           && c == HopAt(documents, mode, s).found
  {
    var d, c := Lookup(documents, s.uri).value, HopAt(documents, mode, s).found;
    var named := ClassesNamed(d.heritage.value.classes, |d.heritage.value.classes|, s.name);
    assert c in named;
    var i :| 0 <= i < |named| && named[i] == c;
    assert c in d.heritage.value.classes;
  }

  // ----- The conservative modes refine the liberal one -----

  /** The evidence calls present exactly the supplied documents among those it covers. */
  predicate EvidenceFor(availability: map<string, bool>, uris: set<string>) {
    forall u :: u in availability ==> (availability[u] <==> u in uris)
  }

  predicate Conservative(mode: Mode, uris: set<string>) {
    mode.availability.Some? ==> EvidenceFor(mode.availability.value, uris)
  }

  lemma {:induction false} PresentIsMatching(candidates: seq<string>, n: nat, availability: map<string, bool>,
                                             uris: set<string>)
    requires n <= |candidates| && EvidenceFor(availability, uris)
    requires forall c :: c in candidates ==> c in availability
    ensures Present(candidates, n, availability) == Matching(candidates, uris, n)
  {
    if n > 0 {
      PresentIsMatching(candidates, n - 1, availability, uris);
      assert candidates[n - 1] in candidates;
    }
  }

  lemma SourceRefines(mode: Mode, uris: set<string>, b: Binding)
    requires Conservative(mode, uris) && SourceOf(mode, uris, b).Some?
    ensures SourceOf(Mode(false, None), uris, b) == SourceOf(mode, uris, b)
  {
    if mode.availability.Some? {
      var candidates := Candidates(b.uri, b.specifier).value;
      PresentIsMatching(candidates, |candidates|, mode.availability.value, uris);
    }
  }

  lemma HopRefines(documents: seq<ClassDocument>, mode: Mode, s: Stop)
    requires Conservative(mode, UrisOf(documents)) && !HopAt(documents, mode, s).Stuck?
    ensures HopAt(documents, Mode(false, None), s) == HopAt(documents, mode, s)
  {
    var d := Lookup(documents, s.uri).value;
    var bindings := BindingsNamed(d.bindings, |d.bindings|, if s.exported then ReExport else Import, s.name);
    if HopAt(documents, mode, s).Continues? { SourceRefines(mode, UrisOf(documents), bindings[0]); }
  }

  lemma HopsRefine(documents: seq<ClassDocument>, mode: Mode)
    requires Conservative(mode, UrisOf(documents))
    ensures Refines(Hops(documents, mode), Hops(documents, Mode(false, None)))
  {
    forall s | !Hops(documents, mode)(s).Stuck?
      ensures Hops(documents, Mode(false, None))(s) == Hops(documents, mode)(s)
    {
      HopRefines(documents, mode, s);
    }
  }

  /** Under any conservative mode, `NoBase` and `Resolved` are the liberal answer. */
  lemma AnswerRefines(documents: seq<ClassDocument>, mode: Mode, uri: string, at: Position)
    requires Conservative(mode, UrisOf(documents)) && !Answer(documents, mode, uri, at).Unknown?
    ensures FreshAnswer(documents, uri, at) == Answer(documents, mode, uri, at)
  {
    var asked := Asked(documents, uri, at).value;
    if asked.base.Some? {
      HopsRefine(documents, mode);
      WalkRefines(Hops(documents, mode), Hops(documents, Mode(false, None)), {}, {},
                  Stop(uri, asked.base.value.name, false));
    }
  }

  /** Evidence about every candidate of every binding loses nothing: the answer is the
      fresh one even where that is `Unknown`. */
  lemma FullEvidenceIsFresh(documents: seq<ClassDocument>, availability: map<string, bool>, uri: string, at: Position)
    requires EvidenceFor(availability, UrisOf(documents))
    requires forall d, b :: d in documents && b in d.bindings ==> Covered(availability, b)
    ensures Answer(documents, Mode(false, Some(availability)), uri, at) == FreshAnswer(documents, uri, at)
  {
    var mode, liberal := Mode(false, Some(availability)), Mode(false, None);
    forall s ensures HopAt(documents, liberal, s) == HopAt(documents, mode, s) {
      CoveredHop(documents, availability, s);
    }
    var asked := Asked(documents, uri, at);
    if asked.Some? && asked.value.base.Some? {
      var start := Stop(uri, asked.value.base.value.name, false);
      WalksAgree(Hops(documents, mode), Hops(documents, liberal), {}, {}, start);
    }
  }

  predicate Covered(availability: map<string, bool>, b: Binding) {
    var candidates := Candidates(b.uri, b.specifier);
    candidates.Some? ==> forall c :: c in candidates.value ==> c in availability
  }

  lemma CoveredHop(documents: seq<ClassDocument>, availability: map<string, bool>, s: Stop)
    requires EvidenceFor(availability, UrisOf(documents))
    requires forall d, b :: d in documents && b in d.bindings ==> Covered(availability, b)
    ensures HopAt(documents, Mode(false, None), s) == HopAt(documents, Mode(false, Some(availability)), s)
  {
    var found := Lookup(documents, s.uri);
    if found.Some? {
      var d := found.value;
      var bindings := BindingsNamed(d.bindings, |d.bindings|, if s.exported then ReExport else Import, s.name);
      if |bindings| > 0 {
        NamedBindingIsThere(d.bindings, |d.bindings|, if s.exported then ReExport else Import, s.name);
        CoveredSource(availability, UrisOf(documents), bindings[0]);
      }
    }
  }

  lemma {:induction false} NamedBindingIsThere(bindings: seq<Binding>, n: nat, kind: Kind, name: string)
    requires n <= |bindings| && |BindingsNamed(bindings, n, kind, name)| > 0
    ensures BindingsNamed(bindings, n, kind, name)[0] in bindings
  {
    if |BindingsNamed(bindings, n - 1, kind, name)| > 0 { NamedBindingIsThere(bindings, n - 1, kind, name); }
  }

  lemma CoveredSource(availability: map<string, bool>, uris: set<string>, b: Binding)
    requires EvidenceFor(availability, uris) && Covered(availability, b)
    ensures SourceOf(Mode(false, None), uris, b) == SourceOf(Mode(false, Some(availability)), uris, b)
  {
    var candidates := Candidates(b.uri, b.specifier);
    if candidates.Some? { PresentIsMatching(candidates.value, |candidates.value|, availability, uris); }
  }

  // ----- Snapshots -----

  datatype Snapshot = Snapshot(documents: seq<ClassDocument>, generation: nat)

  predicate Admissible(uris: seq<string>) {
    && |uris| <= MAX_DOCUMENTS && (forall i :: 0 <= i < |uris| ==> uris[i] != "")
    && forall i, j :: 0 <= i < j < |uris| ==> uris[i] != uris[j]
  }

  function Requested(documents: seq<ClassDocument>): (r: seq<string>)
    ensures |r| == |documents| && forall i :: 0 <= i < |r| ==> r[i] == documents[i].uri
  {
    seq(|documents|, i requires 0 <= i < |documents| => documents[i].uri)
  }

  predicate DistinctAmong(uris: seq<string>, requested: seq<string>) {
    && (forall i :: 0 <= i < |uris| ==> uris[i] in requested)
    && forall i, j :: 0 <= i < j < |uris| ==> uris[i] != uris[j]
  }

  /** Adds `present` for every URI; refuses one that was not requested or is known. */
  method Record(requested: seq<string>, uris: seq<string>, present: bool, known: map<string, bool>)
    returns (r: Option<map<string, bool>>)
    ensures r.Some? <==> DistinctAmong(uris, requested) && forall u :: u in uris ==> u !in known
    ensures r.Some? ==>
      && r.value.Keys == known.Keys + (set u | u in uris)
      && forall u :: u in r.value ==> r.value[u] == if u in known then known[u] else present
  {
    var m := known;
    for i := 0 to |uris|
      invariant forall k :: 0 <= k < i ==> uris[k] in requested && uris[k] !in known
      invariant forall j, k :: 0 <= j < k < i ==> uris[j] != uris[k]
      invariant forall u :: u in m <==> u in known || u in uris[..i]
      invariant forall u :: u in m ==> m[u] == if u in known then known[u] else present
    {
      if uris[i] !in requested || uris[i] in m { return None; }
      m := m[uris[i] := present];
    }
    assert uris[..|uris|] == uris;
    r := Some(m);
  }

  /** Current texts replace persisted facts; absence is the caller's evidence. */
  method ResolveCurrentSources(snapshot: Snapshot, generation: nat, sources: seq<ClassDocument>, absent: seq<string>,
                               uri: string, at: Position)
    returns (r: ClassBaseBinding)
    ensures r == Unknown || r == FreshAnswer(sources, uri, at)
    ensures r ==
      if SourcesAdmitted(snapshot, generation, sources, absent)
      then Answer(sources, Mode(false, Some(Availability(Requested(sources), absent))), uri, at) else Unknown
  {
    var requested := Requested(snapshot.documents);
    if snapshot.generation != generation || !Admissible(requested) { return Unknown; }
    var availability := Evidence(requested, Requested(sources), absent);
    if availability.None? { return Unknown; }
    var mode := Mode(false, availability);
    EvidenceIsExact(sources, availability.value);
    r := ResolveDocuments(sources, mode, uri, at);
    if r != Unknown { AnswerRefines(sources, mode, uri, at); }
  }

  predicate SourcesAdmitted(snapshot: Snapshot, generation: nat, sources: seq<ClassDocument>, absent: seq<string>) {
    && snapshot.generation == generation
    && Admissible(Requested(snapshot.documents))
    && DistinctAmong(Requested(sources) + absent, Requested(snapshot.documents))
  }

  function Availability(current: seq<string>, absent: seq<string>): map<string, bool> {
    map u | u in current + absent :: u in current
  }

  method Evidence(requested: seq<string>, current: seq<string>, absent: seq<string>)
    returns (r: Option<map<string, bool>>)
    ensures r == if DistinctAmong(current + absent, requested) then Some(Availability(current, absent)) else None
  {
    var gone := Record(requested, absent, false, map[]);
    if gone.None? { NotDistinct(current, absent, requested); return None; }
    r := Record(requested, current, true, gone.value);
    if r.None? { NotDistinct(current, absent, requested); return None; }
    AllDistinct(current, absent, requested);
    assert r.value == Availability(current, absent);
  }

  lemma NotDistinct(current: seq<string>, absent: seq<string>, requested: seq<string>)
    ensures DistinctAmong(current + absent, requested) ==>
      && DistinctAmong(absent, requested) && DistinctAmong(current, requested)
      && forall u :: u in current ==> u !in absent
  {
    var both := current + absent;
    if DistinctAmong(both, requested) {
      forall i | 0 <= i < |absent| ensures absent[i] == both[|current| + i] {}
      forall i | 0 <= i < |current| ensures current[i] == both[i] {}
    }
  }

  lemma AllDistinct(current: seq<string>, absent: seq<string>, requested: seq<string>)
    requires DistinctAmong(absent, requested) && DistinctAmong(current, requested)
    requires forall u :: u in current ==> u !in absent
    ensures DistinctAmong(current + absent, requested)
  {
    var both := current + absent;
    forall i, j | 0 <= i < j < |both| ensures both[i] != both[j] {
      if i < |current| { assert both[i] in current; }
      if j >= |current| { assert both[j] in absent; }
    }
  }

  lemma EvidenceIsExact(sources: seq<ClassDocument>, availability: map<string, bool>)
    requires forall u :: u in availability ==> (availability[u] <==> u in Requested(sources))
    ensures EvidenceFor(availability, UrisOf(sources))
  {
    forall u ensures u in UrisOf(sources) <==> u in Requested(sources) {
      if u in UrisOf(sources) {
        var i :| 0 <= i < |sources| && sources[i].uri == u;
        assert Requested(sources)[i] == u;
      }
      if u in Requested(sources) {
        var i :| 0 <= i < |sources| && Requested(sources)[i] == u;
        assert sources[i] in sources;
      }
    }
  }

  /** The document the overlays put in place of `d`. */
  function Overlaying(overlays: seq<ClassDocument>, n: nat, d: ClassDocument): ClassDocument
    requires n <= |overlays|
  {
    if n == 0 then d
    else if overlays[n - 1].uri == d.uri then overlays[n - 1]
    else Overlaying(overlays, n - 1, d)
  }

  function Overlaid(documents: seq<ClassDocument>, overlays: seq<ClassDocument>): (r: seq<ClassDocument>)
    ensures |r| == |documents|
  {
    seq(|documents|, i requires 0 <= i < |documents| => Overlaying(overlays, |overlays|, documents[i]))
  }

  predicate SnapshotAdmitted(snapshot: Snapshot, generation: nat, overlays: seq<ClassDocument>) {
    && snapshot.generation == generation
    && Admissible(Requested(snapshot.documents))
    && (forall i :: 0 <= i < |snapshot.documents| ==> ValidDocument(snapshot.documents[i]))
    && DistinctAmong(Requested(overlays), Requested(snapshot.documents))
  }

  /** The explicit answer on a snapshot is the unrestricted answer on the same metadata. */
  method ResolveClassBaseBindingSnapshot(snapshot: Snapshot, generation: nat, overlays: seq<ClassDocument>,
                                         uri: string, at: Position)
    returns (r: ClassBaseBinding)
    ensures r == Unknown || r == FreshAnswer(Overlaid(snapshot.documents, overlays), uri, at)
    ensures r != Unknown ==> SnapshotAdmitted(snapshot, generation, overlays)
    ensures SnapshotAdmitted(snapshot, generation, overlays) ==>
      r == Answer(Overlaid(snapshot.documents, overlays), Mode(true, None), uri, at)
  {
    if !SnapshotAdmitted(snapshot, generation, overlays) { return Unknown; }
    var documents := Overlaid(snapshot.documents, overlays);
    r := ResolveDocuments(documents, Mode(true, None), uri, at);
    if r != Unknown { AnswerRefines(documents, Mode(true, None), uri, at); }
  }
}
