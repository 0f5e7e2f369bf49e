/** Lexical facts about the classes of a document, and their storage validation. */
module ClassFacts {
  import opened Options
  import opened ReferenceBindings

  datatype Position = Position(line: nat, character: nat)

  predicate Before(a: Position, b: Position) {
    a.line < b.line || (a.line == b.line && a.character < b.character)
  }

  predicate AtMost(a: Position, b: Position) { a == b || Before(a, b) }

  datatype Range = Range(start: Position, end: Position)

  datatype Base = Base(name: string, range: Range)

  datatype Class = Class(name: string, nameRange: Range, declarationRange: Range, base: Option<Base>)

  datatype Heritage = Heritage(uri: string, classes: seq<Class>, complete: bool)

  datatype Provenance = Provenance(supported: bool, directExports: seq<Range>)

  datatype ClassDocument = ClassDocument(uri: string, heritage: Option<Heritage>, provenance: Option<Provenance>,
                                         bindings: seq<Binding>)

  // ----- Storage validation -----

  predicate ContainedNonempty(inner: Range, outer: Range) {
    AtMost(outer.start, inner.start) && Before(inner.start, inner.end) && AtMost(inner.end, outer.end)
  }

  predicate ValidClass(c: Class) {
    && c.name != "" && ContainedNonempty(c.nameRange, c.declarationRange)
    && (c.base.Some? ==>
          && c.base.value.name != "" && AtMost(c.nameRange.end, c.base.value.range.start)
          && ContainedNonempty(c.base.value.range, c.declarationRange))
  }

  predicate ValidHeritage(h: Heritage, uri: string) {
    h.uri == uri && forall i :: 0 <= i < |h.classes| ==> ValidClass(h.classes[i])
  }

  /** The name ranges of the first `n` classes that are among `ranges`. */
  function Canonical(classes: seq<Class>, n: nat, ranges: set<Range>): seq<Range>
    requires n <= |classes|
  {
    if n == 0 then []
    else
      Canonical(classes, n - 1, ranges)
      + if classes[n - 1].nameRange in ranges then [classes[n - 1].nameRange] else []
  }

  function RangeSet(ranges: seq<Range>): set<Range> { set r | r in ranges }

  predicate ValidProvenance(p: Provenance, h: Option<Heritage>) {
    if p.supported then
      && h.Some? && h.value.complete
      && |RangeSet(p.directExports)| == |p.directExports|
      && Canonical(h.value.classes, |h.value.classes|, RangeSet(p.directExports)) == p.directExports
    else p.directExports == []
  }

  predicate ValidDocument(d: ClassDocument) {
    && (d.heritage.Some? ==> ValidHeritage(d.heritage.value, d.uri))
    && (d.provenance.Some? ==> ValidProvenance(d.provenance.value, d.heritage))
    && (forall i :: 0 <= i < |d.bindings| ==>
          && d.bindings[i].uri == d.uri && d.bindings[i].importedName != "" && d.bindings[i].localName != ""
          && d.bindings[i].specifier != "")
    && (d.bindings == [] || (d.provenance.Some? && d.provenance.value.supported))
  }
}
