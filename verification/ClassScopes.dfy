/** What a name means. */
module ClassScopes {
  // A relation of scopes, said by indices into the documents' facts: what a name means
  // inside a document and from outside, and which document an import is from. The resolver
  // answers exactly what chains of this relation say.

  import opened Options
  import opened RelativeSources
  import opened ReferenceBindings
  import opened ClassFacts
  import opened ClassWalk
  import opened ClassBase

  // ----- Documents and names -----

  /** Document `k` is the only one with the URI, and both its scans are trusted. */
  predicate Sole(documents: seq<ClassDocument>, uri: string, k: nat) {
    && k < |documents| && documents[k].uri == uri
    && (forall j :: 0 <= j < |documents| && documents[j].uri == uri ==> j == k)
    && documents[k].heritage.Some? && documents[k].heritage.value.complete
    && documents[k].provenance.Some? && documents[k].provenance.value.supported
  }

  predicate IsClass(d: ClassDocument, i: nat, name: string) {
    d.heritage.Some? && i < |d.heritage.value.classes| && d.heritage.value.classes[i].name == name
  }

  predicate IsBinding(d: ClassDocument, i: nat, kind: Kind, name: string) {
    i < |d.bindings| && d.bindings[i].kind == kind && d.bindings[i].localName == name
  }

  /** The document declares or imports the name at most once. */
  predicate Unambiguous(d: ClassDocument, name: string)
    requires d.heritage.Some?
  {
    var classes := d.heritage.value.classes;
    && (forall i, j :: 0 <= i < j < |classes| ==> !(IsClass(d, i, name) && IsClass(d, j, name)))
    && (forall i, j :: 0 <= i < j < |d.bindings| ==> !(IsBinding(d, i, Import, name) && IsBinding(d, j, Import, name)))
    && forall i, j :: 0 <= i < |classes| && 0 <= j < |d.bindings| ==>
         !(IsClass(d, i, name) && IsBinding(d, j, Import, name))
  }

  predicate ExportedClass(d: ClassDocument, i: nat, name: string) {
    && IsClass(d, i, name) && d.provenance.Some?
    && d.heritage.value.classes[i].nameRange in d.provenance.value.directExports
  }

  /** Seen from inside or, when `exported`, from outside, the name is class `i`. */
  predicate NamesClass(d: ClassDocument, name: string, exported: bool, i: nat)
    requires d.heritage.Some?
  {
    && Unambiguous(d, name) && IsClass(d, i, name)
    && (exported ==>
          ExportedClass(d, i, name) && forall j :: 0 <= j < |d.bindings| ==> !IsBinding(d, j, ReExport, name))
  }

  /** Seen so, the name is binding `i`: an import inside, a re-export from outside. */
  predicate NamesBinding(d: ClassDocument, name: string, exported: bool, i: nat)
    requires d.heritage.Some?
  {
    var kind := if exported then ReExport else Import;
    && Unambiguous(d, name) && IsBinding(d, i, kind, name)
    && (forall j :: 0 <= j < |d.bindings| && IsBinding(d, j, kind, name) ==> j == i)
    && if exported then forall j :: 0 <= j < |d.heritage.value.classes| ==> !ExportedClass(d, j, name)
       else forall j :: 0 <= j < |d.heritage.value.classes| ==> !IsClass(d, j, name)
  }

  /** The document the binding is from: with evidence, the only candidate present of all,
      each of which is covered; without, the only candidate supplied. */
  predicate OnlySource(mode: Mode, uris: set<string>, b: Binding, source: string) {
    var candidates := Candidates(b.uri, b.specifier);
    && candidates.Some? && source in candidates.value
    && match mode.availability
       case Some(known) =>
         && (forall c :: c in candidates.value ==> c in known)
         && forall c :: c in candidates.value ==> (known[c] <==> c == source)
       case None =>
         && (mode.explicitOnly ==> |candidates.value| == 1)
         && forall c :: c in candidates.value ==> (c in uris <==> c == source)
  }

  // ----- The relation -----

  predicate Means(documents: seq<ClassDocument>, s: Stop, c: Class) {
    exists k, i :: 0 <= k < |documents| && Sole(documents, s.uri, k) && 0 <= i < |documents[k].heritage.value.classes|
      && NamesClass(documents[k], s.name, s.exported, i) && documents[k].heritage.value.classes[i] == c
  }

  /** The name is that of an import or re-export, whose imported name is looked up from
      outside in its only source. */
  predicate LeadsTo(documents: seq<ClassDocument>, mode: Mode, s: Stop, t: Stop) {
    exists k, i ::
      0 <= k < |documents| && Sole(documents, s.uri, k) && 0 <= i < |documents[k].bindings|
      && Onward(documents, mode, s, t, k, i)
  }

  predicate Onward(documents: seq<ClassDocument>, mode: Mode, s: Stop, t: Stop, k: nat, i: nat)
    requires k < |documents| && documents[k].heritage.Some? && i < |documents[k].bindings|
  {
    && NamesBinding(documents[k], s.name, s.exported, i)
    && OnlySource(mode, UrisOf(documents), documents[k].bindings[i], t.uri)
    && t.name == documents[k].bindings[i].importedName && t.exported
  }

  // ----- Lists of matches -----

  lemma {:induction false} ClassesNamedExactly(classes: seq<Class>, n: nat, name: string)
    requires n <= |classes|
    ensures |ClassesNamed(classes, n, name)| >= 1 <==> exists i :: 0 <= i < n && classes[i].name == name
    ensures |ClassesNamed(classes, n, name)| >= 2 <==>
      exists i, j :: 0 <= i < j < n && classes[i].name == name && classes[j].name == name
    ensures forall i :: 0 <= i < n && classes[i].name == name && |ClassesNamed(classes, n, name)| == 1 ==>
      ClassesNamed(classes, n, name) == [classes[i]]
  {
    if n > 0 { ClassesNamedExactly(classes, n - 1, name); }
  }

  lemma {:induction false} BindingsNamedExactly(bindings: seq<Binding>, n: nat, kind: Kind, name: string)
    requires n <= |bindings|
    ensures var r := BindingsNamed(bindings, n, kind, name);
      && (|r| >= 1 <==> exists i :: 0 <= i < n && bindings[i].kind == kind && bindings[i].localName == name)
      && (|r| >= 2 <==> exists i, j :: 0 <= i < j < n && bindings[i].kind == kind && bindings[i].localName == name
                                       && bindings[j].kind == kind && bindings[j].localName == name)
      && forall i :: 0 <= i < n && bindings[i].kind == kind && bindings[i].localName == name && |r| == 1 ==>
           r == [bindings[i]]
  {
    if n > 0 { BindingsNamedExactly(bindings, n - 1, kind, name); }
  }

  predicate Known(known: map<string, bool>, c: string) { c in known && known[c] }

  lemma {:induction false} PresentExactly(candidates: seq<string>, n: nat, known: map<string, bool>)
    requires n <= |candidates|
    ensures var r := Present(candidates, n, known);
      && (|r| >= 1 <==> exists i :: 0 <= i < n && Known(known, candidates[i]))
      && (|r| >= 2 <==> exists i, j :: 0 <= i < j < n && Known(known, candidates[i]) && Known(known, candidates[j]))
      && forall i :: 0 <= i < n && Known(known, candidates[i]) && |r| == 1 ==> r == [candidates[i]]
  {
    if n > 0 { PresentExactly(candidates, n - 1, known); }
  }

  lemma {:induction false} MatchingExactly(candidates: seq<string>, n: nat, uris: set<string>)
    requires n <= |candidates|
    ensures var r := Matching(candidates, uris, n);
      && (|r| >= 1 <==> exists i :: 0 <= i < n && candidates[i] in uris)
      && (|r| >= 2 <==> exists i, j :: 0 <= i < j < n && candidates[i] in uris && candidates[j] in uris)
      && forall i :: 0 <= i < n && candidates[i] in uris && |r| == 1 ==> r == [candidates[i]]
  {
    if n > 0 { MatchingExactly(candidates, n - 1, uris); }
  }

  lemma {:induction false} CountExactly(documents: seq<ClassDocument>, n: nat, uri: string)
    requires n <= |documents|
    ensures Count(documents, n, uri) >= 1 <==> exists i :: 0 <= i < n && documents[i].uri == uri
    ensures Count(documents, n, uri) >= 2 <==>
      exists i, j :: 0 <= i < j < n && documents[i].uri == uri && documents[j].uri == uri
    ensures forall i :: 0 <= i < n && documents[i].uri == uri && Count(documents, n, uri) == 1 ==>
      Find(documents, n, uri) == Some(documents[i])
  {
    if n > 0 { CountExactly(documents, n - 1, uri); }
  }

  // ----- Each part of a hop -----

  predicate Distinct(candidates: seq<string>) {
    forall i, j :: 0 <= i < j < |candidates| ==> candidates[i] != candidates[j]
  }

  lemma SourceExactly(mode: Mode, uris: set<string>, b: Binding, source: string)
    ensures SourceOf(mode, uris, b) == Some(source) <==> OnlySource(mode, uris, b, source)
  {
    var candidates := Candidates(b.uri, b.specifier);
    if candidates.Some? {
      forall i, j | 0 <= i < j < |candidates.value| ensures candidates.value[i] != candidates.value[j] {
        CandidatesAreDistinct(b.uri, b.specifier, i, j);
      }
      if mode.availability.Some? {
        PresentSource(candidates.value, mode.availability.value, source);
      } else {
        MatchingSource(candidates.value, uris, source);
      }
    }
  }

  lemma PresentSource(candidates: seq<string>, known: map<string, bool>, source: string)
    requires Distinct(candidates)
    ensures OnlyPresent(candidates, known) == Some(source) <==>
      && source in candidates && (forall c :: c in candidates ==> c in known)
      && forall c :: c in candidates ==> (known[c] <==> c == source)
  {
    PresentExactly(candidates, |candidates|, known);
    if source in candidates && forall c :: c in candidates ==> c in known && (known[c] <==> c == source) {
      var i :| 0 <= i < |candidates| && candidates[i] == source;
      assert Known(known, candidates[i]);
      assert forall j :: 0 <= j < |candidates| && Known(known, candidates[j]) ==> j == i;
    }
    if OnlyPresent(candidates, known) == Some(source) {
      var i :| 0 <= i < |candidates| && Known(known, candidates[i]);
      assert source == candidates[i];
      forall c | c in candidates ensures known[c] <==> c == source {
        var j :| 0 <= j < |candidates| && candidates[j] == c;
        assert Known(known, candidates[j]) ==> j == i;
      }
    }
  }

  lemma MatchingSource(candidates: seq<string>, uris: set<string>, source: string)
    requires Distinct(candidates)
    ensures Matching(candidates, uris, |candidates|) == [source] <==>
      source in candidates && forall c :: c in candidates ==> (c in uris <==> c == source)
  {
    MatchingExactly(candidates, |candidates|, uris);
    if source in candidates && forall c :: c in candidates ==> (c in uris <==> c == source) {
      var i :| 0 <= i < |candidates| && candidates[i] == source;
      assert forall j :: 0 <= j < |candidates| && candidates[j] in uris ==> j == i;
    }
    if Matching(candidates, uris, |candidates|) == [source] {
      var i :| 0 <= i < |candidates| && candidates[i] in uris;
      assert source == candidates[i];
    }
  }

  lemma SoleIsFound(documents: seq<ClassDocument>, uri: string)
    ensures (exists d :: Lookup(documents, uri) == Some(d) && Usable(d)) <==>
      exists k :: 0 <= k < |documents| && Sole(documents, uri, k)
    ensures forall k :: 0 <= k < |documents| && Sole(documents, uri, k) ==>
      Lookup(documents, uri) == Some(documents[k]) && Usable(documents[k])
  {
    CountExactly(documents, |documents|, uri);
    if d :| Lookup(documents, uri) == Some(d) && Usable(d) {
      var k :| 0 <= k < |documents| && documents[k].uri == uri;
      assert Find(documents, |documents|, uri) == Some(documents[k]);
      assert Sole(documents, uri, k);
    }
  }

  // ----- A hop is what the name means -----

  lemma LocalExactly(d: ClassDocument, name: string)
    requires d.heritage.Some?
    ensures var named := ClassesNamed(d.heritage.value.classes, |d.heritage.value.classes|, name);
      var imports := BindingsNamed(d.bindings, |d.bindings|, Import, name);
      |named| + |imports| <= 1 <==> Unambiguous(d, name)
  {
    ClassesNamedExactly(d.heritage.value.classes, |d.heritage.value.classes|, name);
    BindingsNamedExactly(d.bindings, |d.bindings|, Import, name);
    var named := ClassesNamed(d.heritage.value.classes, |d.heritage.value.classes|, name);
    var imports := BindingsNamed(d.bindings, |d.bindings|, Import, name);
    if |named| + |imports| > 1 {
      if |named| >= 1 && |imports| >= 1 {
        var i :| 0 <= i < |d.heritage.value.classes| && d.heritage.value.classes[i].name == name;
        var j :| 0 <= j < |d.bindings| && d.bindings[j].kind == Import && d.bindings[j].localName == name;
        assert IsClass(d, i, name) && IsBinding(d, j, Import, name);
      } else if |named| >= 2 {
        var i, j :| 0 <= i < j < |d.heritage.value.classes|
          && d.heritage.value.classes[i].name == name && d.heritage.value.classes[j].name == name;
        assert IsClass(d, i, name) && IsClass(d, j, name);
      } else {
        var i, j :| 0 <= i < j < |d.bindings| && d.bindings[i].kind == Import && d.bindings[i].localName == name
          && d.bindings[j].kind == Import && d.bindings[j].localName == name;
        assert IsBinding(d, i, Import, name) && IsBinding(d, j, Import, name);
      }
    }
  }

  /** The classes counted: of at most one named, whether it is exported. */
  lemma CountedClass(d: ClassDocument, name: string, exported: bool, named: seq<Class>, classes: seq<Class>)
    requires d.heritage.Some? && d.provenance.Some? && Unambiguous(d, name) && |named| <= 1
    requires named == ClassesNamed(d.heritage.value.classes, |d.heritage.value.classes|, name)
    requires classes == if exported then Exported(named, |named|, d.provenance.value.directExports) else named
    ensures |classes| <= 1
    ensures |classes| == 1 <==>
      exists i :: 0 <= i < |d.heritage.value.classes|
        && if exported then ExportedClass(d, i, name) else IsClass(d, i, name)
    ensures forall i: nat :: i < |d.heritage.value.classes| && |classes| == 1 && IsClass(d, i, name) ==>
      classes == [d.heritage.value.classes[i]]
  {
    ClassesNamedExactly(d.heritage.value.classes, |d.heritage.value.classes|, name);
    if |named| == 1 {
      var i :| 0 <= i < |d.heritage.value.classes| && d.heritage.value.classes[i].name == name;
      assert IsClass(d, i, name) && named == [d.heritage.value.classes[i]];
      assert Exported(named, 0, d.provenance.value.directExports) == [];
      assert forall j :: 0 <= j < |d.heritage.value.classes| && IsClass(d, j, name) ==> j == i;
    }
  }

  lemma CountedBinding(d: ClassDocument, kind: Kind, name: string)
    ensures var r := BindingsNamed(d.bindings, |d.bindings|, kind, name);
      && (|r| == 0 <==> forall j :: 0 <= j < |d.bindings| ==> !IsBinding(d, j, kind, name))
      && (|r| == 1 <==> exists i :: 0 <= i < |d.bindings| && OnlyBinding(d, i, kind, name))
      && forall i: nat :: i < |d.bindings| && OnlyBinding(d, i, kind, name) ==> r == [d.bindings[i]]
  {
    BindingsNamedExactly(d.bindings, |d.bindings|, kind, name);
    var r := BindingsNamed(d.bindings, |d.bindings|, kind, name);
    if |r| >= 1 {
      var i :| 0 <= i < |d.bindings| && d.bindings[i].kind == kind && d.bindings[i].localName == name;
      assert IsBinding(d, i, kind, name);
      if |r| == 1 { assert OnlyBinding(d, i, kind, name); }
    }
    if |r| >= 2 {
      var i, j :| 0 <= i < j < |d.bindings| && d.bindings[i].kind == kind && d.bindings[i].localName == name
        && d.bindings[j].kind == kind && d.bindings[j].localName == name;
      assert IsBinding(d, i, kind, name) && IsBinding(d, j, kind, name);
    }
  }

  predicate OnlyBinding(d: ClassDocument, i: nat, kind: Kind, name: string) {
    IsBinding(d, i, kind, name) && forall j :: 0 <= j < |d.bindings| && IsBinding(d, j, kind, name) ==> j == i
  }

  lemma NamesClassExactly(d: ClassDocument, mode: Mode, uris: set<string>, name: string, exported: bool, c: Class)
    requires Usable(d)
    ensures HopIn(d, mode, uris, name, exported) == Declares(c) <==>
      exists i :: 0 <= i < |d.heritage.value.classes| && NamesClass(d, name, exported, i)
                  && d.heritage.value.classes[i] == c
  {
    LocalExactly(d, name);
    var named := ClassesNamed(d.heritage.value.classes, |d.heritage.value.classes|, name);
    if Unambiguous(d, name) {
      var classes := if exported then Exported(named, |named|, d.provenance.value.directExports) else named;
      CountedClass(d, name, exported, named, classes);
      CountedBinding(d, Import, name);
      CountedBinding(d, ReExport, name);
      if HopIn(d, mode, uris, name, exported) == Declares(c) { ClassIsNamed(d, name, exported, classes, c); }
    }
  }

  lemma ClassIsNamed(d: ClassDocument, name: string, exported: bool, classes: seq<Class>, c: Class)
    requires Usable(d) && Unambiguous(d, name) && classes == [c]
    requires exists i ::
      0 <= i < |d.heritage.value.classes| && if exported then ExportedClass(d, i, name) else IsClass(d, i, name)
    requires forall i: nat :: i < |d.heritage.value.classes| && IsClass(d, i, name) ==>
      classes == [d.heritage.value.classes[i]]
    requires exported ==> forall j :: 0 <= j < |d.bindings| ==> !IsBinding(d, j, ReExport, name)
    ensures exists i :: 0 <= i < |d.heritage.value.classes| && NamesClass(d, name, exported, i)
                        && d.heritage.value.classes[i] == c
  {
    var i :| 0 <= i < |d.heritage.value.classes| && if exported then ExportedClass(d, i, name) else IsClass(d, i, name);
    assert NamesClass(d, name, exported, i);
  }

  /** Binding `i` is what the name stands for, and its only source is the stop's document. */
  predicate Continuing(d: ClassDocument, mode: Mode, uris: set<string>, name: string, exported: bool, t: Stop, i: nat) {
    && d.heritage.Some? && i < |d.bindings| && NamesBinding(d, name, exported, i)
    && SourceOf(mode, uris, d.bindings[i]) == Some(t.uri)
    && t.name == d.bindings[i].importedName && t.exported
  }

  lemma HopFromCounts(d: ClassDocument, mode: Mode, uris: set<string>, name: string, exported: bool,
                      named: seq<Class>, classes: seq<Class>, bindings: seq<Binding>)
    requires Usable(d) && named == ClassesNamed(d.heritage.value.classes, |d.heritage.value.classes|, name)
    requires |named| + |BindingsNamed(d.bindings, |d.bindings|, Import, name)| <= 1
    requires classes == if exported then Exported(named, |named|, d.provenance.value.directExports) else named
    requires bindings == BindingsNamed(d.bindings, |d.bindings|, if exported then ReExport else Import, name)
    requires |classes| == 0 && |bindings| == 1
    ensures HopIn(d, mode, uris, name, exported) ==
      var source := SourceOf(mode, uris, bindings[0]);
      if source.None? then Stuck else Continues(Stop(source.value, bindings[0].importedName, true))
  {
  }

  lemma NoClassCounted(d: ClassDocument, name: string, exported: bool, i: nat, named: seq<Class>, classes: seq<Class>)
    requires Usable(d) && NamesBinding(d, name, exported, i) && |named| <= 1
    requires named == ClassesNamed(d.heritage.value.classes, |d.heritage.value.classes|, name)
    requires classes == if exported then Exported(named, |named|, d.provenance.value.directExports) else named
    ensures |classes| == 0
  {
    CountedClass(d, name, exported, named, classes);
  }

  lemma OneBindingCounted(d: ClassDocument, name: string, exported: bool, i: nat)
    requires Usable(d) && NamesBinding(d, name, exported, i)
    ensures BindingsNamed(d.bindings, |d.bindings|, if exported then ReExport else Import, name) == [d.bindings[i]]
  {
    CountedBinding(d, if exported then ReExport else Import, name);
    assert OnlyBinding(d, i, if exported then ReExport else Import, name);
  }

  lemma BindingContinues(d: ClassDocument, mode: Mode, uris: set<string>, name: string, exported: bool, t: Stop, i: nat)
    requires Usable(d) && Continuing(d, mode, uris, name, exported, t, i)
    ensures HopIn(d, mode, uris, name, exported) == Continues(t)
  {
    LocalExactly(d, name);
    var named := ClassesNamed(d.heritage.value.classes, |d.heritage.value.classes|, name);
    var classes := if exported then Exported(named, |named|, d.provenance.value.directExports) else named;
    NoClassCounted(d, name, exported, i, named, classes);
    OneBindingCounted(d, name, exported, i);
    HopFromCounts(d, mode, uris, name, exported, named, classes, [d.bindings[i]]);
  }

  lemma ContinuesByBinding(d: ClassDocument, mode: Mode, uris: set<string>, name: string, exported: bool, t: Stop)
    returns (i: nat)
    requires Usable(d) && HopIn(d, mode, uris, name, exported) == Continues(t)
    ensures Continuing(d, mode, uris, name, exported, t, i)
  {
    LocalExactly(d, name);
    var named := ClassesNamed(d.heritage.value.classes, |d.heritage.value.classes|, name);
    var classes := if exported then Exported(named, |named|, d.provenance.value.directExports) else named;
    var kind := if exported then ReExport else Import;
    CountedClass(d, name, exported, named, classes);
    CountedBinding(d, kind, name);
    i :| 0 <= i < |d.bindings| && OnlyBinding(d, i, kind, name);
    OnlyIsNamed(d, name, exported, kind, i);
  }

  lemma OnlyIsNamed(d: ClassDocument, name: string, exported: bool, kind: Kind, i: nat)
    requires d.heritage.Some? && Unambiguous(d, name) && kind == (if exported then ReExport else Import)
    requires OnlyBinding(d, i, kind, name)
    requires forall j :: 0 <= j < |d.heritage.value.classes| ==>
      !(if exported then ExportedClass(d, j, name) else IsClass(d, j, name))
    ensures NamesBinding(d, name, exported, i)
  {
  }

  lemma NamesBindingExactly(d: ClassDocument, mode: Mode, uris: set<string>, name: string, exported: bool, t: Stop)
    requires Usable(d)
    ensures HopIn(d, mode, uris, name, exported) == Continues(t) <==>
      exists i :: 0 <= i < |d.bindings| && Continuing(d, mode, uris, name, exported, t, i)
  {
    if HopIn(d, mode, uris, name, exported) == Continues(t) {
      var i := ContinuesByBinding(d, mode, uris, name, exported, t);
    }
    if i :| 0 <= i < |d.bindings| && Continuing(d, mode, uris, name, exported, t, i) {
      BindingContinues(d, mode, uris, name, exported, t, i);
    }
  }

  /** What a stop says is what its name means: a class, or where the meaning is found. */
  lemma HopExactly(documents: seq<ClassDocument>, mode: Mode, s: Stop)
    ensures forall c :: HopAt(documents, mode, s) == Declares(c) <==> Means(documents, s, c)
    ensures forall t :: HopAt(documents, mode, s) == Continues(t) <==> LeadsTo(documents, mode, s, t)
  {
    SoleIsFound(documents, s.uri);
    var found := Lookup(documents, s.uri);
    if found.Some? && Usable(found.value) {
      var k :| 0 <= k < |documents| && Sole(documents, s.uri, k);
      FoundHop(documents, mode, s, k);
    }
  }

  lemma FoundHop(documents: seq<ClassDocument>, mode: Mode, s: Stop, k: nat)
    requires k < |documents| && Sole(documents, s.uri, k) && Lookup(documents, s.uri) == Some(documents[k])
    ensures forall c :: HopAt(documents, mode, s) == Declares(c) <==> Means(documents, s, c)
    ensures forall t :: HopAt(documents, mode, s) == Continues(t) <==> LeadsTo(documents, mode, s, t)
  {
    forall c ensures HopAt(documents, mode, s) == Declares(c) <==> Means(documents, s, c) {
      NamesClassExactly(documents[k], mode, UrisOf(documents), s.name, s.exported, c);
    }
    forall t ensures HopAt(documents, mode, s) == Continues(t) <==> LeadsTo(documents, mode, s, t) {
      FoundContinues(documents, mode, s, k, t);
    }
  }

  lemma FoundContinues(documents: seq<ClassDocument>, mode: Mode, s: Stop, k: nat, t: Stop)
    requires k < |documents| && Sole(documents, s.uri, k) && Lookup(documents, s.uri) == Some(documents[k])
    ensures HopAt(documents, mode, s) == Continues(t) <==> LeadsTo(documents, mode, s, t)
  {
    var d, uris := documents[k], UrisOf(documents);
    NamesBindingExactly(d, mode, uris, s.name, s.exported, t);
    forall i: nat | i < |d.bindings|
      ensures Continuing(d, mode, uris, s.name, s.exported, t, i) <==> Onward(documents, mode, s, t, k, i)
    {
      SourceExactly(mode, uris, d.bindings[i], t.uri);
    }
  }

  // ----- Answers are chains of meanings -----

  /** The names lead from one to the next, and the last one means the class. */
  predicate Meanings(documents: seq<ClassDocument>, mode: Mode, stops: seq<Stop>, c: Class) {
    && stops != []
    && (forall k: nat :: k + 1 < |stops| ==> LeadsOn(documents, mode, stops, k))
    && Means(documents, stops[|stops| - 1], c)
  }

  predicate LeadsOn(documents: seq<ClassDocument>, mode: Mode, stops: seq<Stop>, k: nat)
    requires k + 1 < |stops|
  {
    LeadsTo(documents, mode, stops[k], stops[k + 1])
  }

  lemma MeaningsAreTrails(documents: seq<ClassDocument>, mode: Mode, stops: seq<Stop>, c: Class)
    ensures Meanings(documents, mode, stops, c) <==>
      Trail(Hops(documents, mode), stops) && Hops(documents, mode)(stops[|stops| - 1]).found == c
  {
    var hop := Hops(documents, mode);
    if stops != [] {
      HopExactly(documents, mode, stops[|stops| - 1]);
      forall k: nat | k + 1 < |stops| ensures Link(hop, stops, k) <==> LeadsOn(documents, mode, stops, k) {
        HopExactly(documents, mode, stops[k]);
      }
      if Trail(hop, stops) && hop(stops[|stops| - 1]).found == c {
        forall k: nat | k + 1 < |stops| ensures LeadsOn(documents, mode, stops, k) { assert Link(hop, stops, k); }
      }
      if Meanings(documents, mode, stops, c) {
        forall k | 0 <= k < |stops| - 1 ensures Link(hop, stops, k) { assert LeadsOn(documents, mode, stops, k); }
      }
    }
  }

  /** The class's name stands at the position. */
  predicate StandsAt(c: Class, at: Position) {
    && (c.nameRange.start.line < at.line
        || (c.nameRange.start.line == at.line && c.nameRange.start.character <= at.character))
    && (at.line < c.nameRange.end.line
        || (at.line == c.nameRange.end.line && at.character < c.nameRange.end.character))
  }

  /** It is the only such class of the only document of that URI. */
  predicate AsksAbout(documents: seq<ClassDocument>, uri: string, at: Position, c: Class) {
    exists k, i :: 0 <= k < |documents| && Sole(documents, uri, k) && 0 <= i < |documents[k].heritage.value.classes|
      && OnlyAt(documents[k].heritage.value.classes, i, at) && documents[k].heritage.value.classes[i] == c
  }

  predicate OnlyAt(classes: seq<Class>, i: nat, at: Position) {
    i < |classes| && forall j :: 0 <= j < |classes| ==> (StandsAt(classes[j], at) <==> j == i)
  }

  lemma {:induction false} ClassesAtExactly(classes: seq<Class>, n: nat, at: Position)
    requires n <= |classes|
    ensures var r := ClassesAt(classes, n, at);
      && (|r| >= 1 <==> exists i :: 0 <= i < n && StandsAt(classes[i], at))
      && (|r| >= 2 <==> exists i, j :: 0 <= i < j < n && StandsAt(classes[i], at) && StandsAt(classes[j], at))
      && forall i :: 0 <= i < n && StandsAt(classes[i], at) && |r| == 1 ==> r == [classes[i]]
  {
    if n > 0 { ClassesAtExactly(classes, n - 1, at); }
  }

  lemma AskedExactly(documents: seq<ClassDocument>, uri: string, at: Position, c: Class)
    ensures Asked(documents, uri, at) == Some(c) <==> AsksAbout(documents, uri, at, c)
  {
    SoleIsFound(documents, uri);
    var found := Lookup(documents, uri);
    if found.Some? && Usable(found.value) {
      var k :| 0 <= k < |documents| && Sole(documents, uri, k);
      var classes := documents[k].heritage.value.classes;
      ClassesAtExactly(classes, |classes|, at);
      if |ClassesAt(classes, |classes|, at)| == 1 {
        var i :| 0 <= i < |classes| && StandsAt(classes[i], at);
        assert OnlyAt(classes, i, at);
      }
    }
  }

  /** The answer is `NoBase` exactly when the one class named at the position has no base, and
      it is a class exactly when the base's name leads to it over at most 32 names, supported
      by the documents on the way. Otherwise nothing is known. */
  lemma AnswerExactly(documents: seq<ClassDocument>, mode: Mode, uri: string, at: Position, r: ClassBaseBinding)
    ensures Answer(documents, mode, uri, at) == NoBase <==>
      exists c :: AsksAbout(documents, uri, at, c) && c.base.None?
    ensures r.Resolved? ==> (Answer(documents, mode, uri, at) == r <==> Answers(documents, mode, uri, at, r))
  {
    var asked := Asked(documents, uri, at);
    forall c ensures asked == Some(c) <==> AsksAbout(documents, uri, at, c) { AskedExactly(documents, uri, at, c); }
    if r.Resolved? && asked.Some? && asked.value.base.Some? {
      ResolvedExactly(documents, mode, Stop(uri, asked.value.base.value.name, false), r);
    }
  }

  predicate ChainTo(documents: seq<ClassDocument>, mode: Mode, s: Stop, stops: seq<Stop>, c: Class,
                    r: ClassBaseBinding) {
    && Meanings(documents, mode, stops, c) && stops[0] == s && |stops| <= 32
    && r == Resolved(stops[|stops| - 1].uri, c.name, c.nameRange, set x | x in stops :: x.uri)
  }

  ghost predicate Answers(documents: seq<ClassDocument>, mode: Mode, uri: string, at: Position, r: ClassBaseBinding) {
    exists asked, stops, c ::
      && AsksAbout(documents, uri, at, asked) && asked.base.Some?
      && ChainTo(documents, mode, Stop(uri, asked.base.value.name, false), stops, c, r)
  }

  lemma {:induction false} TrailUrisAreAll(stops: seq<Stop>, n: nat)
    requires n <= |stops|
    ensures TrailUris(stops, n) == set x | x in stops[..n] :: x.uri
  {
    if n > 0 {
      TrailUrisAreAll(stops, n - 1);
      assert stops[..n] == stops[..n - 1] + [stops[n - 1]];
    }
  }

  lemma ResolvedExactly(documents: seq<ClassDocument>, mode: Mode, s: Stop, r: ClassBaseBinding)
    requires r.Resolved?
    ensures Walk(Hops(documents, mode), {}, {}, s) == r <==> exists stops, c :: ChainTo(documents, mode, s, stops, c, r)
  {
    var hop := Hops(documents, mode);
    WalkIsTrail(hop, s, r);
    if stops :| Trail(hop, stops) && stops[0] == s && |stops| <= MAX_STOPS && r == TrailEnd(hop, stops) {
      TrailIsChain(documents, mode, s, stops, r);
    }
    if stops, c :| ChainTo(documents, mode, s, stops, c, r) {
      MeaningsAreTrails(documents, mode, stops, c);
      TrailUrisAreAll(stops, |stops|);
      assert stops[..|stops|] == stops;
      assert r == TrailEnd(hop, stops);
    }
  }

  lemma TrailIsChain(documents: seq<ClassDocument>, mode: Mode, s: Stop, stops: seq<Stop>, r: ClassBaseBinding)
    requires Trail(Hops(documents, mode), stops) && stops[0] == s && |stops| <= MAX_STOPS
    requires r == TrailEnd(Hops(documents, mode), stops)
    ensures exists stops, c :: ChainTo(documents, mode, s, stops, c, r)
  {
    var c := Hops(documents, mode)(stops[|stops| - 1]).found;
    MeaningsAreTrails(documents, mode, stops, c);
    TrailUrisAreAll(stops, |stops|);
    assert stops[..|stops|] == stops;
    assert ChainTo(documents, mode, s, stops, c, r);
  }
}
