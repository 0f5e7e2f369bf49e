/** The bounded walk of the resolver. */
module ClassWalk {
  // The walk is over any hop function; trails say what it finds.

  import opened ClassFacts

  const MAX_STOPS: nat := 32

  datatype ClassBaseBinding = NoBase | Unknown
    | Resolved(uri: string, name: string, nameRange: Range, support: set<string>)

  datatype Stop = Stop(uri: string, name: string, exported: bool)

  /** What a stop says: nothing usable, a class of its own, or where to look next. */
  datatype Hop = Stuck | Declares(found: Class) | Continues(next: Stop)

  /** The walk from `s`; the visited stops bound it and end every cycle. */
  function Walk(hop: Stop -> Hop, visited: set<Stop>, support: set<string>, s: Stop): (r: ClassBaseBinding)
    ensures !r.NoBase?
    decreases MAX_STOPS - |visited|
  {
    if |visited| >= MAX_STOPS || s in visited then Unknown
    else
      match hop(s)
      case Stuck => Unknown
      case Declares(c) => Resolved(s.uri, c.name, c.nameRange, support + {s.uri})
      case Continues(next) => Walk(hop, visited + {s}, support + {s.uri}, next)
  }

  // ----- Trails -----

  predicate Link(hop: Stop -> Hop, stops: seq<Stop>, k: nat)
    requires k + 1 < |stops|
  {
    hop(stops[k]) == Continues(stops[k + 1])
  }

  /** Hops that lead to a declaration, without any bookkeeping. */
  predicate Trail(hop: Stop -> Hop, stops: seq<Stop>) {
    && stops != []
    && (forall k :: 0 <= k < |stops| - 1 ==> Link(hop, stops, k))
    && hop(stops[|stops| - 1]).Declares?
  }

  function TrailUris(stops: seq<Stop>, n: nat): set<string>
    requires n <= |stops|
  {
    if n == 0 then {} else TrailUris(stops, n - 1) + {stops[n - 1].uri}
  }

  function StopSet(stops: seq<Stop>, n: nat): set<Stop>
    requires n <= |stops|
  {
    if n == 0 then {} else StopSet(stops, n - 1) + {stops[n - 1]}
  }

  lemma {:induction false} StopIsEarlier(stops: seq<Stop>, n: nat, s: Stop) returns (k: nat)
    requires n <= |stops| && s in StopSet(stops, n)
    ensures k < n && stops[k] == s
  {
    if s == stops[n - 1] { k := n - 1; } else { k := StopIsEarlier(stops, n - 1, s); }
  }

  /** A trail never comes back: the next stop is a function of the stop. */
  lemma {:induction false} TrailNeverRepeats(hop: Stop -> Hop, stops: seq<Stop>, i: nat, j: nat)
    requires Trail(hop, stops) && i < j < |stops|
    ensures stops[i] != stops[j]
    decreases |stops| - j
  {
    assert Link(hop, stops, i);
    if j + 1 < |stops| {
      assert Link(hop, stops, j);
      TrailNeverRepeats(hop, stops, i + 1, j + 1);
    }
  }

  lemma StopIsNew(hop: Stop -> Hop, stops: seq<Stop>, n: nat)
    requires Trail(hop, stops) && n < |stops|
    ensures stops[n] !in StopSet(stops, n)
  {
    if stops[n] in StopSet(stops, n) {
      var k := StopIsEarlier(stops, n, stops[n]);
      TrailNeverRepeats(hop, stops, k, n);
    }
  }

  lemma {:induction false} StopsCount(hop: Stop -> Hop, stops: seq<Stop>, n: nat)
    requires Trail(hop, stops) && n <= |stops|
    ensures |StopSet(stops, n)| == n
  {
    if n > 0 {
      StopsCount(hop, stops, n - 1);
      StopIsNew(hop, stops, n - 1);
    }
  }

  /** What a trail resolves to. */
  function TrailEnd(hop: Stop -> Hop, stops: seq<Stop>): ClassBaseBinding
    requires Trail(hop, stops)
  {
    var last := stops[|stops| - 1];
    Resolved(last.uri, hop(last).found.name, hop(last).found.nameRange, TrailUris(stops, |stops|))
  }

  lemma {:induction false} WalkFollows(hop: Stop -> Hop, stops: seq<Stop>, n: nat, visited: set<Stop>,
                                       support: set<string>)
    requires Trail(hop, stops) && n < |stops| <= MAX_STOPS
    requires visited == StopSet(stops, n) && support == TrailUris(stops, n)
    ensures Walk(hop, visited, support, stops[n]) == TrailEnd(hop, stops)
    decreases |stops| - n
  {
    StopsCount(hop, stops, n);
    StopIsNew(hop, stops, n);
    if n + 1 == |stops| {
      WalkEnds(hop, stops, visited, support);
    } else {
      var s := stops[n];
      assert Link(hop, stops, n);
      WalkSteps(hop, visited, support, s);
      WalkFollows(hop, stops, n + 1, visited + {s}, support + {s.uri});
    }
  }

  lemma WalkFollowsTrail(hop: Stop -> Hop, stops: seq<Stop>)
    requires Trail(hop, stops) && |stops| <= MAX_STOPS
    ensures Walk(hop, {}, {}, stops[0]) == TrailEnd(hop, stops)
  {
    WalkFollows(hop, stops, 0, {}, {});
  }

  lemma WalkSteps(hop: Stop -> Hop, visited: set<Stop>, support: set<string>, s: Stop)
    requires |visited| < MAX_STOPS && s !in visited && hop(s).Continues?
    ensures Walk(hop, visited, support, s) == Walk(hop, visited + {s}, support + {s.uri}, hop(s).next)
  {
  }

  lemma WalkEnds(hop: Stop -> Hop, stops: seq<Stop>, visited: set<Stop>, support: set<string>)
    requires Trail(hop, stops) && support == TrailUris(stops, |stops| - 1)
    requires |visited| < MAX_STOPS && stops[|stops| - 1] !in visited
    ensures Walk(hop, visited, support, stops[|stops| - 1]) == TrailEnd(hop, stops)
  {
  }

  /** A successful walk leaves a trail within the bound. */
  lemma {:induction false} WalkLeavesTrail(hop: Stop -> Hop, visited: set<Stop>, support: set<string>, s: Stop)
    returns (stops: seq<Stop>)
    requires Walk(hop, visited, support, s).Resolved?
    ensures Trail(hop, stops) && stops[0] == s && |stops| <= MAX_STOPS - |visited|
    decreases MAX_STOPS - |visited|
  {
    var next := hop(s);
    if next.Declares? {
      stops := [s];
    } else {
      var rest := WalkLeavesTrail(hop, visited + {s}, support + {s.uri}, next.next);
      stops := [s] + rest;
      forall k | 0 <= k < |stops| - 1 ensures Link(hop, stops, k) {
        if k > 0 { assert Link(hop, rest, k - 1); }
      }
    }
  }

  /** The walk finds exactly the declaration at the end of a trail of at most 32 stops,
      supported by exactly the documents on it; the visited set only ends cycles. */
  lemma WalkIsTrail(hop: Stop -> Hop, s: Stop, r: ClassBaseBinding)
    requires r.Resolved?
    ensures Walk(hop, {}, {}, s) == r <==>
      exists stops :: Trail(hop, stops) && stops[0] == s && |stops| <= MAX_STOPS && r == TrailEnd(hop, stops)
  {
    if Walk(hop, {}, {}, s) == r {
      var stops := WalkLeavesTrail(hop, {}, {}, s);
      WalkFollowsTrail(hop, stops);
    }
    if stops :| Trail(hop, stops) && stops[0] == s && |stops| <= MAX_STOPS && r == TrailEnd(hop, stops) {
      WalkFollowsTrail(hop, stops);
    }
  }

  lemma {:induction false} TrailStaysInside(hop: Stop -> Hop, stops: seq<Stop>, n: nat, uris: set<string>)
    requires Trail(hop, stops) && n <= |stops|
    requires forall s :: !hop(s).Stuck? ==> s.uri in uris
    ensures TrailUris(stops, n) <= uris
    ensures forall k :: 0 <= k < n ==> stops[k].uri in TrailUris(stops, n)
  {
    if n > 0 {
      TrailStaysInside(hop, stops, n - 1, uris);
      if n < |stops| { assert Link(hop, stops, n - 1); }
      assert !hop(stops[n - 1]).Stuck?;
    }
  }

  // ----- Refinement -----

  /** Where the conservative hop moves, it moves as the liberal one does. */
  ghost predicate Refines(conservative: Stop -> Hop, liberal: Stop -> Hop) {
    forall s :: !conservative(s).Stuck? ==> liberal(s) == conservative(s)
  }

  lemma {:induction false} WalkRefines(conservative: Stop -> Hop, liberal: Stop -> Hop, visited: set<Stop>,
                                       support: set<string>, s: Stop)
    requires Refines(conservative, liberal) && Walk(conservative, visited, support, s).Resolved?
    ensures Walk(liberal, visited, support, s) == Walk(conservative, visited, support, s)
    decreases MAX_STOPS - |visited|
  {
    var hop := conservative(s);
    if hop.Continues? { WalkRefines(conservative, liberal, visited + {s}, support + {s.uri}, hop.next); }
  }

  lemma {:induction false} WalksAgree(a: Stop -> Hop, b: Stop -> Hop, visited: set<Stop>, support: set<string>, s: Stop)
    requires forall t :: a(t) == b(t)
    ensures Walk(a, visited, support, s) == Walk(b, visited, support, s)
    decreases MAX_STOPS - |visited|
  {
    var hop := a(s);
    assert b(s) == hop;
    if |visited| < MAX_STOPS && s !in visited && hop.Continues? {
      WalksAgree(a, b, visited + {s}, support + {s.uri}, hop.next);
    }
  }
}
