/** Import and re-export bindings, and the two passes that resolve their sources in place:
    by relative candidates first, then by resolutions made elsewhere. */
module ReferenceBindings {
  import opened Options
  import opened RelativeSources

  datatype Kind = Import | ReExport

  datatype Resolution = Unique | External | Unresolved | Ambiguous | Unsupported

  datatype Binding = Binding(uri: string, importedName: string, localName: string, specifier: string,
                             kind: Kind, resolution: Resolution, source: Option<string>,
                             terminal: Option<string>)

  /** The resolution and its two payloads agree; both passes keep this. */
  predicate Consistent(b: Binding) {
    && (b.resolution == Unique <==> b.source.Some?)
    && (b.resolution == External <==> b.terminal.Some?)
  }

  function Resolved(b: Binding, resolution: Resolution, source: Option<string>, terminal: Option<string>): Binding {
    b.(resolution := resolution, source := source, terminal := terminal)
  }

  // ----- Relative sources -----

  /** The candidates before `n` that are documents, in order. */
  function Matching(candidates: seq<string>, documents: set<string>, n: nat): seq<string>
    requires n <= |candidates|
  {
    if n == 0 then []
    else Matching(candidates, documents, n - 1) + if candidates[n - 1] in documents then [candidates[n - 1]] else []
  }

  function ResolvedRelative(b: Binding, documents: set<string>): Binding {
    var candidates := Candidates(b.uri, b.specifier);
    if candidates.None? then Resolved(b, Unsupported, None, None)
    else
      var matches := Matching(candidates.value, documents, |candidates.value|);
      if |matches| == 1 then Resolved(b, Unique, Some(matches[0]), None)
      else if matches == [] then Resolved(b, Unresolved, None, None)
      else Resolved(b, Ambiguous, None, None)
  }

  method ResolveReferenceBindingSources(bindings: array<Binding>, documents: set<string>)
    modifies bindings
    ensures forall i :: 0 <= i < bindings.Length ==> bindings[i] == ResolvedRelative(old(bindings[i]), documents)
  {
    for i := 0 to bindings.Length
      invariant forall k :: 0 <= k < i ==> bindings[k] == ResolvedRelative(old(bindings[k]), documents)
      invariant forall k :: i <= k < bindings.Length ==> bindings[k] == old(bindings[k])
    {
      var b := bindings[i];
      var candidates := RelativeSourceUriCandidates(b.uri, b.specifier);
      if candidates.None? {
        bindings[i] := Resolved(b, Unsupported, None, None);
      } else {
        var matches: seq<string> := [];
        for k := 0 to |candidates.value|
          invariant matches == Matching(candidates.value, documents, k)
        {
          if candidates.value[k] in documents { matches := matches + [candidates.value[k]]; }
        }
        if |matches| == 1 {
          bindings[i] := Resolved(b, Unique, Some(matches[0]), None);
        } else if matches == [] {
          bindings[i] := Resolved(b, Unresolved, None, None);
        } else {
          bindings[i] := Resolved(b, Ambiguous, None, None);
        }
      }
    }
  }

  lemma {:induction false} MatchingIsFilter(candidates: seq<string>, documents: set<string>, n: nat, uri: string)
    requires n <= |candidates|
    ensures uri in Matching(candidates, documents, n) <==> uri in candidates[..n] && uri in documents
  {
    if n > 0 {
      MatchingIsFilter(candidates, documents, n - 1, uri);
      assert candidates[..n] == candidates[..n - 1] + [candidates[n - 1]];
    }
  }

  lemma {:induction false} MatchingIsDistinct(candidates: seq<string>, documents: set<string>, n: nat, i: nat, j: nat)
    requires n <= |candidates| && i < j < |Matching(candidates, documents, n)|
    requires forall a, b :: 0 <= a < b < |candidates| ==> candidates[a] != candidates[b]
    ensures Matching(candidates, documents, n)[i] != Matching(candidates, documents, n)[j]
  {
    var shorter := Matching(candidates, documents, n - 1);
    if j < |shorter| {
      MatchingIsDistinct(candidates, documents, n - 1, i, j);
    } else {
      MatchingIsFilter(candidates, documents, n - 1, shorter[i]);
      assert shorter[i] in shorter;
    }
  }

  /** The documents among the candidates. */
  function Existing(candidates: seq<string>, documents: set<string>): set<string> {
    set u | u in candidates && u in documents
  }

  /** The resolution counts documents: `Unique` names the only candidate that exists,
      `Unresolved` says there is none, `Ambiguous` that there are two. */
  lemma RelativeResolutionCountsDocuments(b: Binding, documents: set<string>)
    ensures var r, cs := ResolvedRelative(b, documents), Candidates(b.uri, b.specifier);
      && Consistent(r)
      && (r.resolution == Unsupported <==> cs.None?)
      && (r.resolution == Unique <==> cs.Some? && r.source.Some? && Existing(cs.value, documents) == {r.source.value})
      && (r.resolution == Unresolved <==> cs.Some? && Existing(cs.value, documents) == {})
      && (r.resolution == Ambiguous <==> cs.Some? && |Existing(cs.value, documents)| >= 2)
  {
    var cs := Candidates(b.uri, b.specifier);
    if cs.Some? { MatchesCount(b, documents, cs.value, Matching(cs.value, documents, |cs.value|)); }
  }

  lemma MatchesCount(b: Binding, documents: set<string>, cs: seq<string>, matches: seq<string>)
    requires Candidates(b.uri, b.specifier) == Some(cs) && matches == Matching(cs, documents, |cs|)
    ensures |matches| == 0 ==> Existing(cs, documents) == {}
    ensures |matches| == 1 ==> Existing(cs, documents) == {matches[0]}
    ensures |matches| > 1 ==> |Existing(cs, documents)| >= 2
  {
    MatchesAreExisting(cs, documents);
    if |matches| > 1 {
      DistinctMatches(b, documents, cs);
      assert matches[0] in matches && matches[1] in matches;
      TwoMembers(Existing(cs, documents), matches[0], matches[1]);
    }
  }

  lemma MatchesAreExisting(cs: seq<string>, documents: set<string>)
    ensures forall u :: u in Matching(cs, documents, |cs|) <==> u in Existing(cs, documents)
  {
    assert cs[..|cs|] == cs;
    forall u ensures u in Matching(cs, documents, |cs|) <==> u in Existing(cs, documents) {
      MatchingIsFilter(cs, documents, |cs|, u);
    }
  }

  lemma TwoMembers(s: set<string>, a: string, b: string)
    requires a in s && b in s && a != b
    ensures |s| >= 2
  {
    assert s == {a, b} + (s - {a, b});
  }

  lemma DistinctMatches(b: Binding, documents: set<string>, cs: seq<string>)
    requires Candidates(b.uri, b.specifier) == Some(cs)
    requires |Matching(cs, documents, |cs|)| > 1
    ensures Matching(cs, documents, |cs|)[0] != Matching(cs, documents, |cs|)[1]
  {
    forall i, j | 0 <= i < j < |cs| ensures cs[i] != cs[j] {
      CandidatesAreDistinct(b.uri, b.specifier, i, j);
    }
    MatchingIsDistinct(cs, documents, |cs|, 0, 1);
  }

  // ----- Sources resolved elsewhere -----

  datatype Target = InWorkspace(uri: string) | AtTerminal(identity: string)

  datatype SourceResolution = SourceResolution(uri: string, specifier: string, source: Option<string>,
                                               terminal: Option<string>)

  predicate ValidTerminal(identity: string) {
    && |identity| == 68 && HasPrefix(identity, "sdk:")
    && forall i :: 4 <= i < |identity| ==> '0' <= identity[i] <= '9' || 'a' <= identity[i] <= 'f'
  }

  predicate SdkModule(specifier: string) {
    && '/' !in specifier && '\\' !in specifier
    && (HasPrefix(specifier, "@ohos.") || HasPrefix(specifier, "@system.")
        || HasPrefix(specifier, "@kit.") || HasPrefix(specifier, "@arkts."))
  }

  function TargetOf(r: SourceResolution, documents: set<string>): Option<Target> {
    if r.source.Some? && r.terminal.None? && (r.source.value in documents || HasPrefix(r.source.value, SCHEME)) then
      Some(InWorkspace(r.source.value))
    else if r.source.None? && r.terminal.Some? && ValidTerminal(r.terminal.value) && SdkModule(r.specifier) then
      Some(AtTerminal(r.terminal.value))
    else None
  }

  datatype Key = Key(uri: string, specifier: string)

  predicate Offers(r: SourceResolution, documents: set<string>, key: Key, target: Target) {
    key == Key(r.uri, r.specifier) && TargetOf(r, documents) == Some(target)
  }

  /** Every usable resolution for `key` among the first `n` names `target`, and one does. */
  ghost predicate Agreed(rs: seq<SourceResolution>, n: nat, documents: set<string>, key: Key, target: Target)
    requires n <= |rs|
  {
    && (exists i :: 0 <= i < n && Offers(rs[i], documents, key, target))
    && forall i, t :: 0 <= i < n && Offers(rs[i], documents, key, t) ==> t == target
  }

  datatype Vote = NoOffer | One(target: Target) | Conflict

  function Counted(v: Vote, target: Target): Vote {
    if v.NoOffer? || v == One(target) then One(target) else Conflict
  }

  function VoteOn(rs: seq<SourceResolution>, n: nat, documents: set<string>, key: Key): Vote
    requires n <= |rs|
  {
    if n == 0 then NoOffer
    else
      var v, t := VoteOn(rs, n - 1, documents, key), TargetOf(rs[n - 1], documents);
      if key == Key(rs[n - 1].uri, rs[n - 1].specifier) && t.Some? then Counted(v, t.value) else v
  }

  lemma {:induction false} VoteIsAgreement(rs: seq<SourceResolution>, n: nat, documents: set<string>, key: Key)
    requires n <= |rs|
    ensures VoteOn(rs, n, documents, key).NoOffer? <==>
      forall i, t :: 0 <= i < n ==> !Offers(rs[i], documents, key, t)
    ensures forall t :: VoteOn(rs, n, documents, key) == One(t) <==> Agreed(rs, n, documents, key, t)
  {
    if n > 0 {
      VoteIsAgreement(rs, n - 1, documents, key);
      var v, u := VoteOn(rs, n - 1, documents, key), TargetOf(rs[n - 1], documents);
      if key == Key(rs[n - 1].uri, rs[n - 1].specifier) && u.Some? {
        assert Offers(rs[n - 1], documents, key, u.value);
        forall t ensures Counted(v, u.value) == One(t) <==> Agreed(rs, n, documents, key, t) {
          OfferCounts(rs, n, documents, key, v, u.value, t);
        }
      } else {
        forall t ensures Agreed(rs, n, documents, key, t) <==> Agreed(rs, n - 1, documents, key, t) {
          assert !Offers(rs[n - 1], documents, key, t);
        }
      }
    }
  }

  lemma OfferCounts(rs: seq<SourceResolution>, n: nat, documents: set<string>, key: Key, v: Vote, u: Target, t: Target)
    requires 0 < n <= |rs| && Offers(rs[n - 1], documents, key, u)
    requires v.NoOffer? <==> forall i, t :: 0 <= i < n - 1 ==> !Offers(rs[i], documents, key, t)
    requires forall t :: v == One(t) <==> Agreed(rs, n - 1, documents, key, t)
    ensures Counted(v, u) == One(t) <==> Agreed(rs, n, documents, key, t)
  {
    if Agreed(rs, n, documents, key, t) {
      assert u == t;
      if !v.NoOffer? {
        var i, w :| 0 <= i < n - 1 && Offers(rs[i], documents, key, w);
        assert w == t;
        assert Agreed(rs, n - 1, documents, key, t);
      }
    }
  }

  /** What the table says about a key; a key with two targets holds an empty entry. */
  function Stored(table: map<Key, Option<Target>>, key: Key): Vote {
    if key !in table then NoOffer else if table[key].None? then Conflict else One(table[key].value)
  }

  method TabulateResolutions(rs: seq<SourceResolution>, documents: set<string>)
    returns (table: map<Key, Option<Target>>)
    ensures forall key :: Stored(table, key) == VoteOn(rs, |rs|, documents, key)
  {
    table := map[];
    for n := 0 to |rs|
      invariant forall key :: Stored(table, key) == VoteOn(rs, n, documents, key)
    {
      var target := TargetOf(rs[n], documents);
      var key := Key(rs[n].uri, rs[n].specifier);
      if target.Some? {
        if key in table {
          if table[key] != target { table := table[key := None]; }
        } else {
          table := table[key := target];
        }
      }
    }
  }

  /** A later resolution never overrides a unique relative source. */
  function Overlaid(b: Binding, v: Vote): Binding {
    if b.resolution == Unique || !v.One? then b
    else if v.target.InWorkspace? then Resolved(b, Unique, Some(v.target.uri), None)
    else Resolved(b, External, None, Some(v.target.identity))
  }

  function Overlay(b: Binding, rs: seq<SourceResolution>, documents: set<string>): Binding {
    Overlaid(b, VoteOn(rs, |rs|, documents, Key(b.uri, b.specifier)))
  }

  method ApplyReferenceSourceResolutions(bindings: array<Binding>, rs: seq<SourceResolution>, documents: set<string>)
    modifies bindings
    ensures forall i :: 0 <= i < bindings.Length ==> bindings[i] == Overlay(old(bindings[i]), rs, documents)
  {
    var table := TabulateResolutions(rs, documents);
    for i := 0 to bindings.Length
      invariant forall k :: 0 <= k < i ==> bindings[k] == Overlay(old(bindings[k]), rs, documents)
      invariant forall k :: i <= k < bindings.Length ==> bindings[k] == old(bindings[k])
    {
      var b := bindings[i];
      var key := Key(b.uri, b.specifier);
      assert Stored(table, key) == VoteOn(rs, |rs|, documents, key);
      if b.resolution != Unique && key in table && table[key].Some? {
        bindings[i] := match table[key].value
          case InWorkspace(uri) => Resolved(b, Unique, Some(uri), None)
          case AtTerminal(identity) => Resolved(b, External, None, Some(identity));
      }
    }
  }

  /** After both passes a binding is `Unique` exactly with a source and `External` exactly
      with a terminal identity; a unique relative source stands, and any other binding is
      overlaid exactly when the usable resolutions for it agree. */
  lemma OverlayFollowsAgreement(b: Binding, rs: seq<SourceResolution>, documents: set<string>)
    requires Consistent(b)
    ensures var after, key := Overlay(b, rs, documents), Key(b.uri, b.specifier);
      && Consistent(after)
      && (b.resolution == Unique ==> after == b)
      && (forall t :: b.resolution != Unique && Agreed(rs, |rs|, documents, key, t) ==>
            (if t.InWorkspace? then after.source == Some(t.uri) else after.terminal == Some(t.identity)))
      && (after != b ==> exists t :: Agreed(rs, |rs|, documents, key, t))
  {
    VoteIsAgreement(rs, |rs|, documents, Key(b.uri, b.specifier));
  }
}
