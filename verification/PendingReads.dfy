/** Admission of queued reads: at most 64 sources and 4 MiB of retained input, kept by books
    beside the queue that the object updates with every change. */
module PendingReads {
  import opened Options
  import opened Mutations
  import opened Lanes

  const MAX_SOURCES: nat := 64

  /** Bytes retained by the first `n` reads. */
  function Total(items: seq<Read>, n: nat): nat
    requires n <= |items|
  {
    if n == 0 then 0 else Total(items, n - 1) + items[n - 1].bytes
  }

  /** Reads of `uri` among the first `n`. */
  function Count(items: seq<Read>, n: nat, uri: Uri): nat
    requires n <= |items|
  {
    if n == 0 then 0 else Count(items, n - 1, uri) + if items[n - 1].uri == uri then 1 else 0
  }

  lemma {:induction false} SamePrefix(a: seq<Read>, b: seq<Read>, n: nat, uri: Uri)
    requires n <= |a| && n <= |b| && forall i :: 0 <= i < n ==> a[i] == b[i]
    ensures Total(a, n) == Total(b, n) && Count(a, n, uri) == Count(b, n, uri)
  {
    if n > 0 {
      SamePrefix(a, b, n - 1, uri);
    }
  }

  lemma {:induction false} RemovalPrefix(items: seq<Read>, at: nat, n: nat, uri: Uri)
    requires at < n <= |items|
    ensures |Without(items, at)| == |items| - 1
    ensures Total(Without(items, at), n - 1) + items[at].bytes == Total(items, n)
    ensures Count(Without(items, at), n - 1, uri) + (if items[at].uri == uri then 1 else 0) == Count(items, n, uri)
  {
    if n == at + 1 {
      SamePrefix(items, Without(items, at), at, uri);
    } else {
      RemovalPrefix(items, at, n - 1, uri);
    }
  }

  lemma AppendCounts(items: seq<Read>, r: Read, uri: Uri)
    ensures Total(items + [r], |items| + 1) == Total(items, |items|) + r.bytes
    ensures Count(items + [r], |items| + 1, uri) == Count(items, |items|, uri) + if r.uri == uri then 1 else 0
  {
    SamePrefix(items, items + [r], |items|, uri);
  }

  lemma {:induction false} CountedIffPresent(items: seq<Read>, n: nat, uri: Uri)
    requires n <= |items|
    ensures Count(items, n, uri) > 0 <==> exists i :: 0 <= i < n && items[i].uri == uri
  {
    if n > 0 {
      CountedIffPresent(items, n - 1, uri);
      if items[n - 1].uri == uri {
        assert 0 <= n - 1 < n && items[n - 1].uri == uri;
      }
    }
  }

  ghost function Sources(items: seq<Read>): set<Uri> {
    set r | r in items :: r.uri
  }

  /** What admission decides, in terms of the queue alone. */
  ghost predicate Admits(items: seq<Read>, r: Read) {
    && |Sources(items + [r])| <= MAX_SOURCES
    && Total(items, |items|) + r.bytes <= MAX_TEXT_BYTES
  }

  // ----- The books kept beside the queue -----

  ghost predicate SourceBook(items: seq<Read>, sources: map<Uri, nat>) {
    && (forall u :: u in sources <==> Count(items, |items|, u) > 0)
    && (forall u :: u in sources ==> sources[u] == Count(items, |items|, u))
  }

  ghost predicate WeightBook(items: seq<Read>, weights: map<nat, nat>) {
    forall i :: 0 <= i < |items| ==> items[i].handle in weights && weights[items[i].handle] == items[i].bytes
  }

  lemma KeysAreSources(items: seq<Read>, sources: map<Uri, nat>, r: Read)
    requires SourceBook(items, sources)
    ensures sources.Keys == Sources(items)
    ensures Sources(items + [r]) == sources.Keys + {r.uri}
  {
    forall u
      ensures u in sources <==> u in Sources(items)
    {
      CountedIffPresent(items, |items|, u);
    }
  }

  lemma AddSource(items: seq<Read>, sources: map<Uri, nat>, r: Read)
    requires SourceBook(items, sources)
    ensures SourceBook(items + [r], sources[r.uri := (if r.uri in sources then sources[r.uri] else 0) + 1])
  {
    forall u
      ensures Count(items + [r], |items| + 1, u) == Count(items, |items|, u) + if r.uri == u then 1 else 0
    {
      AppendCounts(items, r, u);
    }
  }

  lemma AddWeight(items: seq<Read>, weights: map<nat, nat>, r: Read)
    requires WeightBook(items, weights) && Distinct(items)
    requires forall i :: 0 <= i < |items| ==> items[i].handle != r.handle
    ensures WeightBook(items + [r], weights[r.handle := r.bytes]) && Distinct(items + [r])
    ensures Total(items + [r], |items + [r]|) == Total(items, |items|) + r.bytes
  {
    AppendCounts(items, r, r.uri);
  }

  /** The guard on the books is the bound on the queue. */
  lemma AdmissionBySize(items: seq<Read>, sources: map<Uri, nat>, r: Read)
    requires SourceBook(items, sources) && |sources| <= MAX_SOURCES
    ensures var count := if r.uri in sources then sources[r.uri] else 0;
      && (|Sources(items + [r])| > MAX_SOURCES <==> count == 0 && |sources| >= MAX_SOURCES)
      && |sources[r.uri := count + 1]| == |Sources(items + [r])|
  {
    KeysAreSources(items, sources, r);
    var count := if r.uri in sources then sources[r.uri] else 0;
    assert sources[r.uri := count + 1].Keys == sources.Keys + {r.uri};
    assert |sources| == |sources.Keys|;
  }

  /** One read less from `uri`: its entry is lowered, or dropped when it was the last. */
  function Lowered(sources: map<Uri, nat>, uri: Uri): map<Uri, nat>
    requires uri in sources && sources[uri] > 0
  {
    if sources[uri] > 1 then sources[uri := sources[uri] - 1] else sources - {uri}
  }

  lemma RemoveSource(items: seq<Read>, sources: map<Uri, nat>, at: nat)
    requires SourceBook(items, sources) && at < |items|
    ensures items[at].uri in sources && sources[items[at].uri] > 0
    ensures SourceBook(Without(items, at), Lowered(sources, items[at].uri))
    ensures |Lowered(sources, items[at].uri)| <= |sources|
  {
    var uri := items[at].uri;
    CountedIffPresent(items, |items|, uri);
    forall u
      ensures Count(Without(items, at), |items| - 1, u) + (if uri == u then 1 else 0) == Count(items, |items|, u)
    {
      RemovalPrefix(items, at, |items|, u);
    }
    assert |Without(items, at)| == |items| - 1;
    LoweredSize(sources, uri);
  }

  lemma LoweredSize(sources: map<Uri, nat>, uri: Uri)
    requires uri in sources && sources[uri] > 0
    ensures |Lowered(sources, uri)| <= |sources|
  {
    if sources[uri] > 1 {
      assert sources[uri := sources[uri] - 1].Keys == sources.Keys;
    } else {
      assert (sources - {uri}).Keys == sources.Keys - {uri};
    }
  }

  lemma RemoveWeight(items: seq<Read>, weights: map<nat, nat>, at: nat)
    requires WeightBook(items, weights) && Distinct(items) && at < |items|
    ensures WeightBook(Without(items, at), weights - {items[at].handle}) && Distinct(Without(items, at))
  {
    WithoutIndex(items, at, at);
  }

  class PendingReads {
    var items: seq<Read>
    var sources: map<Uri, nat>
    var weights: map<nat, nat>
    var bytes: nat

    /** The three books agree with the queue, and the queue is within its bounds. */
    ghost predicate Valid()
      reads this
    {
      && Distinct(items)
      && bytes == Total(items, |items|) <= MAX_TEXT_BYTES
      && SourceBook(items, sources) && |sources| <= MAX_SOURCES
      && WeightBook(items, weights)
    }

    constructor ()
      ensures Valid() && items == []
    {
      items, sources, weights, bytes := [], map[], map[], 0;
    }

    /** Admits exactly the reads that keep the number of sources and the retained bytes
        within their limits. */
    method Add(r: Read) returns (ok: bool)
      requires Valid() && forall i :: 0 <= i < |items| ==> items[i].handle != r.handle
      modifies this
      ensures Valid()
      ensures ok <==> old(Admits(items, r))
      ensures items == if ok then old(items) + [r] else old(items)
    {
      var count := if r.uri in sources then sources[r.uri] else 0;
      AdmissionBySize(items, sources, r);
      if (count == 0 && |sources| >= MAX_SOURCES) || bytes + r.bytes > MAX_TEXT_BYTES {
        return false;
      }
      AddSource(items, sources, r);
      AddWeight(items, weights, r);
      items, sources := items + [r], sources[r.uri := count + 1];
      weights := weights[r.handle := r.bytes];
      bytes := bytes + r.bytes;
      return true;
    }

    /** Takes the read the scheduler selects; its admission weight is always on the books. */
    method TakeSelected(detached: bool, bypassed: Option<nat>) returns (taken: Option<Read>, next: Option<nat>)
      requires Valid()
      modifies this
      ensures Valid()
      ensures var s := old(Select(items, detached, bypassed));
        && next == s.bypassed && items == Without(old(items), s.index)
        && taken == if s.index < 0 then None else Some(old(items)[s.index])
    {
      var rest;
      taken, rest, next := TakeNext(items, detached, bypassed);
      var index := Select(items, detached, bypassed).index;
      if index >= 0 {
        Release(index);
      }
    }

    method Remove(handle: nat) returns (ok: bool)
      requires Valid()
      modifies this
      ensures Valid()
      ensures ok <==> old(IndexOf(items, handle)) >= 0
      ensures items == Without(old(items), old(IndexOf(items, handle)))
    {
      var index := IndexOf(items, handle);
      if index < 0 { return false; }
      Release(index);
      return true;
    }

    method Drain() returns (drained: seq<Read>)
      requires Valid()
      modifies this
      ensures Valid() && items == [] && drained == old(items)
    {
      drained := items;
      items, sources, weights, bytes := [], map[], map[], 0;
    }

    method Release(index: nat)
      requires Valid() && index < |items|
      modifies this
      ensures Valid() && items == Without(old(items), index)
    {
      var r := items[index];
      RemoveSource(items, sources, index);
      RemoveWeight(items, weights, index);
      RemovalPrefix(items, index, |items|, r.uri);
      bytes := bytes - weights[r.handle];
      weights := weights - {r.handle};
      var count := sources[r.uri] - 1;
      sources := if count > 0 then sources[r.uri := count] else sources - {r.uri};
      items := items[..index] + items[index + 1..];
    }
  }
}
