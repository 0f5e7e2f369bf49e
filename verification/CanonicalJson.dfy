/** Canonical JSON admission: the work stack against a recursive serializer. */
module CanonicalJson {
  // The traversal pays for array and object punctuation when it meets a container, for
  // keys when it queues their values, and for leaves when it pops them; the serializer
  // writes bytes in document order. The stack is proved to accept exactly the values
  // that are well formed, within the depth and node limits, and whose bytes fit.

  import opened Text

  const MAX_DEPTH: nat := 32
  const MAX_NODES: nat := 65536
  const MAX_SAFE_INTEGER: nat := 0x1f_ffff_ffff_ffff

  /** A JavaScript value as the decoder sees it. `plain` says that the prototype, keys
      and property descriptors of a container are ordinary.
      `digits` are the ASCII bytes of the shortest decimal form, with -0 written 0. */
  datatype Value =
    | Null
    | Bool(b: bool)
    | Num(digits: seq<Byte>)
    | NonFinite
    | Str(s: Utf16)
    | Undefined
    | Foreign
    | Arr(plain: bool, elems: seq<Value>)
    | Rec(plain: bool, fields: seq<Field>)

  datatype Field = Field(key: Utf16, value: Value)

  // ----- The recursive serializer -----

  ghost function Serialize(v: Value): seq<Byte>
    decreases v, 1, 0
  {
    match v
    case Null => [0x6e, 0x75, 0x6c, 0x6c]
    case Bool(b) => if b then [0x74, 0x72, 0x75, 0x65] else [0x66, 0x61, 0x6c, 0x73, 0x65]
    case Num(digits) => digits
    case Str(s) => WireEncoding(s)
    case Arr(_, elems) => [0x5b] + SerializeElems(elems, |elems|) + [0x5d]
    case Rec(_, fields) => [0x7b] + SerializeFields(fields, |fields|) + [0x7d]
    case NonFinite => []
    case Undefined => []
    case Foreign => []
  }

  /** The first `n` elements, separated by commas. */
  ghost function SerializeElems(elems: seq<Value>, n: nat): seq<Byte>
    requires n <= |elems|
    decreases elems, 0, n
  {
    if n == 0 then []
    else SerializeElems(elems, n - 1) + (if n == 1 then [] else [0x2c]) + Serialize(elems[n - 1])
  }

  /** The first `n` properties; those whose value is undefined are skipped. */
  ghost function SerializeFields(fields: seq<Field>, n: nat): seq<Byte>
    requires n <= |fields|
    decreases fields, 0, n
  {
    if n == 0 then []
    else
      var f := fields[n - 1];
      if f.value.Undefined? then SerializeFields(fields, n - 1)
      else SerializeFields(fields, n - 1) + (if Defined(fields, n - 1) == 0 then [] else [0x2c])
           + WireEncoding(f.key) + [0x3a] + Serialize(f.value)
  }

  function Defined(fields: seq<Field>, n: nat): nat
    requires n <= |fields|
  {
    if n == 0 then 0
    else Defined(fields, n - 1) + (if fields[n - 1].value.Undefined? then 0 else 1)
  }

  // ----- What admission measures -----

  /** Bytes and nodes, and whether every part is JSON within the depth limit. */
  datatype Measure = Measure(bytes: nat, nodes: nat, legal: bool) {
    function Plus(m: Measure): Measure {
      Measure(bytes + m.bytes, nodes + m.nodes, legal && m.legal)
    }
  }

  const Zero := Measure(0, 0, true)

  function Commas(count: nat): nat { if count == 0 then 0 else count - 1 }

  function Leaf(bytes: nat, legal: bool): Measure {
    Measure(bytes, 1, legal)
  }

  function Container(legal: bool, count: nat): Measure {
    Measure(2 + Commas(count), 1, legal)
  }

  function KeyCost(bytes: nat): Measure {
    Measure(bytes, 0, true)
  }

  /** The measure of a value met at `depth`. */
  function Of(v: Value, depth: nat): (m: Measure)
    ensures m.nodes >= 1
    decreases v, 1, 0
  {
    var shallow := depth <= MAX_DEPTH;
    match v
    case Null => Leaf(4, shallow)
    case Bool(b) => Leaf(if b then 4 else 5, shallow)
    case Num(digits) => Leaf(|digits|, shallow)
    case Str(s) => Leaf(WireBytes(s), shallow)
    case Arr(plain, elems) => Container(plain && shallow, |elems|).Plus(OfElems(elems, |elems|, depth))
    case Rec(plain, fields) =>
      Container(plain && shallow, Defined(fields, |fields|)).Plus(OfFields(fields, |fields|, depth))
    case NonFinite => Leaf(0, false)
    case Undefined => Leaf(0, false)
    case Foreign => Leaf(0, false)
  }

  /** The first `n` elements of an array met at `depth`. */
  function OfElems(elems: seq<Value>, n: nat, depth: nat): Measure
    requires n <= |elems|
    decreases elems, 0, n
  {
    if n == 0 then Zero else OfElems(elems, n - 1, depth).Plus(Of(elems[n - 1], depth + 1))
  }

  function OfField(f: Field, depth: nat): (m: Measure)
    ensures m.nodes >= 1
    decreases f, 2, 0
  {
    if f.value.Undefined? then Leaf(0, depth + 1 <= MAX_DEPTH)
    else KeyCost(WireBytes(f.key) + 1).Plus(Of(f.value, depth + 1))
  }

  /** The first `n` properties of an object met at `depth`. */
  function OfFields(fields: seq<Field>, n: nat, depth: nat): Measure
    requires n <= |fields|
    decreases fields, 0, n
  {
    if n == 0 then Zero else OfFields(fields, n - 1, depth).Plus(OfField(fields[n - 1], depth))
  }

  lemma {:induction false} BytesAreLength(v: Value, depth: nat)
    ensures |Serialize(v)| == Of(v, depth).bytes
    decreases v, 1, 0
  {
    match v {
      case Str(s) => CountsAreLengths(s);
      case Arr(_, elems) => ElemBytes(elems, |elems|, depth);
      case Rec(_, fields) => FieldBytes(fields, |fields|, depth);
      case _ =>
    }
  }

  lemma {:induction false} ElemBytes(elems: seq<Value>, n: nat, depth: nat)
    requires n <= |elems|
    ensures |SerializeElems(elems, n)| == OfElems(elems, n, depth).bytes + Commas(n)
    decreases elems, 0, n
  {
    if n > 0 {
      ElemBytes(elems, n - 1, depth);
      BytesAreLength(elems[n - 1], depth + 1);
    }
  }

  lemma {:induction false} FieldBytes(fields: seq<Field>, n: nat, depth: nat)
    requires n <= |fields|
    ensures |SerializeFields(fields, n)| == OfFields(fields, n, depth).bytes + Commas(Defined(fields, n))
    decreases fields, 0, n
  {
    if n > 0 {
      var f := fields[n - 1];
      FieldBytes(fields, n - 1, depth);
      if !f.value.Undefined? {
        BytesAreLength(f.value, depth + 1);
        CountsAreLengths(f.key);
        EntryMeasure(f, depth);
      }
    }
  }

  /** `total` is the sum of `a` and `b`, field by field. */
  ghost predicate Adds(total: Measure, a: Measure, b: Measure) {
    && total.bytes == a.bytes + b.bytes
    && total.nodes == a.nodes + b.nodes
    && (total.legal <==> a.legal && b.legal)
  }

  // ----- The work stack -----

  datatype Work = Visit(value: Value, depth: nat) | Freeze

  function OfWork(w: Work): Measure {
    if w.Freeze? then Zero else Of(w.value, w.depth)
  }

  /** The measure of the lowest `n` items of the stack. */
  function OfStack(work: seq<Work>, n: nat): Measure
    requires n <= |work|
  {
    if n == 0 then Zero else OfStack(work, n - 1).Plus(OfWork(work[n - 1]))
  }

  function Freezes(work: seq<Work>, n: nat): nat
    requires n <= |work|
  {
    if n == 0 then 0 else Freezes(work, n - 1) + (if work[n - 1].Freeze? then 1 else 0)
  }

  function Whole(work: seq<Work>): Measure { OfStack(work, |work|) }

  lemma {:induction false} SameBelow(work: seq<Work>, more: seq<Work>, n: nat)
    requires n <= |work| && n <= |more| && forall i :: 0 <= i < n ==> work[i] == more[i]
    ensures OfStack(work, n) == OfStack(more, n) && Freezes(work, n) == Freezes(more, n)
  {
    if n > 0 {
      SameBelow(work, more, n - 1);
    }
  }

  lemma Push(work: seq<Work>, w: Work)
    ensures Adds(Whole(work + [w]), Whole(work), OfWork(w))
    ensures Freezes(work + [w], |work| + 1) == Freezes(work, |work|) + if w.Freeze? then 1 else 0
  {
    SameBelow(work, work + [w], |work|);
  }

  lemma Pop(work: seq<Work>)
    requires work != []
    ensures Adds(Whole(work), Whole(work[..|work| - 1]), OfWork(work[|work| - 1]))
    ensures Freezes(work, |work|) == Freezes(work[..|work| - 1], |work| - 1)
                                   + if work[|work| - 1].Freeze? then 1 else 0
  {
    SameBelow(work[..|work| - 1], work, |work| - 1);
  }

  // ----- Arrays -----

  lemma {:induction false} UndefinedElement(elems: seq<Value>, n: nat, at: nat, depth: nat)
    requires at < n <= |elems| && elems[at].Undefined?
    ensures !OfElems(elems, n, depth).legal
  {
    if at < n - 1 {
      UndefinedElement(elems, n - 1, at, depth);
    }
  }

  lemma {:induction false} ElemsAreNodes(elems: seq<Value>, n: nat, depth: nat)
    requires n <= |elems|
    ensures OfElems(elems, n, depth).nodes >= n
  {
    if n > 0 {
      ElemsAreNodes(elems, n - 1, depth);
    }
  }

  lemma QueueElem(work: seq<Work>, elems: seq<Value>, index: nat, depth: nat, goal: Measure)
    requires index < |elems|
    requires Adds(goal, Whole(work), OfElems(elems, index + 1, depth))
    ensures Adds(goal, Whole(work + [Visit(elems[index], depth + 1)]), OfElems(elems, index, depth))
    ensures Freezes(work + [Visit(elems[index], depth + 1)], |work| + 1) == Freezes(work, |work|)
  {
    Push(work, Visit(elems[index], depth + 1));
  }

  /** Queues the elements last to first. Fails on an undefined element. */
  method PushElems(work: seq<Work>, elems: seq<Value>, depth: nat) returns (ok: bool, pushed: seq<Work>)
    ensures ok ==> Adds(Whole(pushed), Whole(work), OfElems(elems, |elems|, depth))
    ensures ok ==> Freezes(pushed, |pushed|) == Freezes(work, |work|)
    ensures !ok ==> !OfElems(elems, |elems|, depth).legal
  {
    pushed := work;
    ghost var goal := Whole(work).Plus(OfElems(elems, |elems|, depth));
    var index := |elems|;
    while index > 0
      invariant 0 <= index <= |elems|
      invariant Adds(goal, Whole(pushed), OfElems(elems, index, depth))
      invariant Freezes(pushed, |pushed|) == Freezes(work, |work|)
    {
      index := index - 1;
      if elems[index].Undefined? {
        UndefinedElement(elems, |elems|, index, depth);
        return false, work;
      }
      QueueElem(pushed, elems, index, depth, goal);
      pushed := pushed + [Visit(elems[index], depth + 1)];
    }
    return true, pushed;
  }

  // ----- Objects -----

  /** The defined properties among the first `n`, in order. */
  function Entries(fields: seq<Field>, n: nat): (entries: seq<Field>)
    requires n <= |fields|
    ensures |entries| == Defined(fields, n) <= n
    ensures forall k :: 0 <= k < |entries| ==> !entries[k].value.Undefined?
  {
    if n == 0 then []
    else if fields[n - 1].value.Undefined? then Entries(fields, n - 1)
    else Entries(fields, n - 1) + [fields[n - 1]]
  }

  /** What claiming `count` undefined properties of an object at `depth` adds. */
  function Skipped(count: nat, depth: nat): Measure {
    Measure(0, count, count == 0 || depth + 1 <= MAX_DEPTH)
  }

  lemma {:induction false} SameFields(fields: seq<Field>, more: seq<Field>, n: nat, depth: nat)
    requires n <= |fields| <= |more| && forall i :: 0 <= i < n ==> fields[i] == more[i]
    ensures OfFields(fields, n, depth) == OfFields(more, n, depth)
  {
    if n > 0 {
      SameFields(fields, more, n - 1, depth);
    }
  }

  /** The measure of an object's properties splits into the skipped and the kept. */
  lemma {:induction false} Selection(fields: seq<Field>, n: nat, depth: nat)
    requires n <= |fields|
    ensures Adds(OfFields(fields, n, depth), Skipped(n - |Entries(fields, n)|, depth),
                 OfFields(Entries(fields, n), |Entries(fields, n)|, depth))
  {
    if n > 0 {
      Selection(fields, n - 1, depth);
      var kept, f := Entries(fields, n - 1), fields[n - 1];
      if !f.value.Undefined? {
        SameFields(kept, kept + [f], |kept|, depth);
      }
    }
  }

  lemma {:induction false} FieldsAreNodes(fields: seq<Field>, n: nat, depth: nat)
    requires n <= |fields|
    ensures OfFields(fields, n, depth).nodes >= n
  {
    if n > 0 {
      FieldsAreNodes(fields, n - 1, depth);
    }
  }

  lemma {:induction false} DeepField(fields: seq<Field>, n: nat, at: nat, depth: nat)
    requires at < n <= |fields| && fields[at].value.Undefined? && depth + 1 > MAX_DEPTH
    ensures !OfFields(fields, n, depth).legal
  {
    if at < n - 1 {
      DeepField(fields, n - 1, at, depth);
    }
  }

  /** Claims a node for every undefined property and keeps the others, in order. */
  method SelectEntries(fields: seq<Field>, depth: nat, claimed: nat)
    returns (ok: bool, entries: seq<Field>, nodes: nat)
    requires claimed <= MAX_NODES
    ensures ok ==> entries == Entries(fields, |fields|) && nodes == claimed + |fields| - |entries| <= MAX_NODES
    ensures ok && nodes > claimed ==> depth + 1 <= MAX_DEPTH
    ensures !ok ==> !OfFields(fields, |fields|, depth).legal
                    || claimed + OfFields(fields, |fields|, depth).nodes > MAX_NODES
  {
    entries, nodes := [], claimed;
    for i := 0 to |fields|
      invariant entries == Entries(fields, i)
      invariant nodes == claimed + i - |entries| <= MAX_NODES
      invariant nodes > claimed ==> depth + 1 <= MAX_DEPTH
    {
      if fields[i].value.Undefined? {
        nodes := nodes + 1;
        if depth + 1 > MAX_DEPTH {
          DeepField(fields, |fields|, i, depth);
          return false, entries, nodes;
        }
        if nodes > MAX_NODES {
          FieldsAreNodes(fields, |fields|, depth);
          return false, entries, nodes;
        }
      } else {
        entries := entries + [fields[i]];
      }
    }
    return true, entries, nodes;
  }

  lemma QueueEntry(work: seq<Work>, entries: seq<Field>, index: nat, depth: nat, paid: nat, goal: Measure)
    requires index < |entries| && !entries[index].value.Undefined?
    requires Adds(goal, KeyCost(paid).Plus(Whole(work)), OfFields(entries, index + 1, depth))
    ensures Adds(goal, KeyCost(paid + WireBytes(entries[index].key) + 1)
                         .Plus(Whole(work + [Visit(entries[index].value, depth + 1)])), OfFields(entries, index, depth))
    ensures goal.bytes >= paid + Whole(work).bytes + WireBytes(entries[index].key) + 1
    ensures Whole(work + [Visit(entries[index].value, depth + 1)]).bytes >= Whole(work).bytes
    ensures Freezes(work + [Visit(entries[index].value, depth + 1)], |work| + 1) == Freezes(work, |work|)
  {
    Push(work, Visit(entries[index].value, depth + 1));
    EntryMeasure(entries[index], depth);
  }

  lemma EntryMeasure(f: Field, depth: nat)
    requires !f.value.Undefined?
    ensures Adds(OfField(f, depth), KeyCost(WireBytes(f.key) + 1), OfWork(Visit(f.value, depth + 1)))
  {
  }

  /** Pays for the keys and queues the values, last to first. */
  method PushFields(work: seq<Work>, entries: seq<Field>, depth: nat, paid: nat, maxBytes: nat)
    returns (ok: bool, pushed: seq<Work>, wire: nat)
    requires forall k :: 0 <= k < |entries| ==> !entries[k].value.Undefined?
    requires paid <= maxBytes <= MAX_SAFE_INTEGER
    ensures ok ==>
      && paid <= wire <= maxBytes
      && Adds(Whole(work).Plus(OfFields(entries, |entries|, depth)), KeyCost(wire - paid), Whole(pushed))
      && Freezes(pushed, |pushed|) == Freezes(work, |work|)
    ensures !ok ==> paid + OfFields(entries, |entries|, depth).bytes > maxBytes
  {
    pushed, wire := work, paid;
    ghost var goal := Whole(work).Plus(OfFields(entries, |entries|, depth));
    var index := |entries|;
    while index > 0
      invariant 0 <= index <= |entries|
      invariant paid <= wire <= maxBytes
      invariant Adds(goal, KeyCost(wire - paid).Plus(Whole(pushed)), OfFields(entries, index, depth))
      invariant Whole(pushed).bytes >= Whole(work).bytes
      invariant Freezes(pushed, |pushed|) == Freezes(work, |work|)
    {
      index := index - 1;
      QueueEntry(pushed, entries, index, depth, wire - paid, goal);
      var ok, bytes := JsonStringWireBytes(entries[index].key, maxBytes - wire - 1);
      if !ok {
        return false, pushed, wire;
      }
      wire := wire + bytes + 1;
      pushed := pushed + [Visit(entries[index].value, depth + 1)];
    }
    return true, pushed, wire;
  }

  /** The bytes of a quoted string, when they fit. */
  method JsonStringWireBytes(value: Utf16, maxBytes: int) returns (ok: bool, bytes: nat)
    requires maxBytes <= MAX_SAFE_INTEGER
    ensures ok <==> WireBytes(value) <= maxBytes
    ensures ok ==> bytes == WireBytes(value)
  {
    CountsAreLengths(value);
    RawWithinWire(value, 0);
    var metrics := StringByteMetrics(value, MAX_SAFE_INTEGER, maxBytes);
    return metrics.Metrics?, if metrics.Metrics? then metrics.wire else 0;
  }

  lemma {:induction false} RawWithinWire(s: Utf16, i: nat)
    requires i <= |s|
    ensures RawFrom(s, i) <= WireFrom(s, i)
    decreases |s| - i
  {
    if i < |s| {
      RawWithinWire(s, i + Width(s, i));
    }
  }

  // ----- The traversal -----

  datatype Outcome = Accepted(wireBytes: nat, nodes: nat) | Invalid | TooLarge

  /** What one value did: the stack and counters after it, or a refusal. */
  datatype Expansion = Expanded(work: seq<Work>, wire: nat, nodes: nat) | Refused(byBytes: bool)

  /** An expansion is exact, and a refusal is justified by the value itself. */
  ghost predicate Justified(e: Expansion, v: Value, depth: nat, work: seq<Work>, wire: nat, nodes: nat, maxBytes: nat) {
    match e
    case Refused(true) => wire + Of(v, depth).bytes > maxBytes
    case Refused(false) => !Of(v, depth).legal || nodes + Of(v, depth).nodes > MAX_NODES
    case Expanded(more, paid, claimed) =>
      && wire <= paid <= maxBytes && nodes < claimed <= MAX_NODES
      && Adds(Whole(work).Plus(Of(v, depth)), Measure(paid - wire, claimed - nodes, true), Whole(more))
      && Freezes(more, |more|) <= Freezes(work, |work|) + 1
  }

  method ExpandArray(work: seq<Work>, v: Value, depth: nat, wire: nat, nodes: nat, maxBytes: nat)
    returns (e: Expansion)
    requires v.Arr? && depth <= MAX_DEPTH && nodes + 1 <= MAX_NODES && wire <= maxBytes <= MAX_SAFE_INTEGER
    ensures Justified(e, v, depth, work, wire, nodes, maxBytes)
  {
    var elems, claimed := v.elems, nodes + 1;
    if !v.plain { return Refused(false); }
    ElemsAreNodes(elems, |elems|, depth);
    if |elems| > MAX_NODES - claimed { return Refused(false); }
    var paid := wire + 2 + Commas(|elems|);
    if paid > maxBytes { return Refused(true); }
    Push(work, Freeze);
    var ok, pushed := PushElems(work + [Freeze], elems, depth);
    if !ok { return Refused(false); }
    return Expanded(pushed, paid, claimed);
  }

  method ExpandRecord(work: seq<Work>, v: Value, depth: nat, wire: nat, nodes: nat, maxBytes: nat)
    returns (e: Expansion)
    requires v.Rec? && depth <= MAX_DEPTH && nodes + 1 <= MAX_NODES && wire <= maxBytes <= MAX_SAFE_INTEGER
    ensures Justified(e, v, depth, work, wire, nodes, maxBytes)
  {
    var fields := v.fields;
    if !v.plain { return Refused(false); }
    FieldsAreNodes(fields, |fields|, depth);
    if |fields| > MAX_NODES - (nodes + 1) { return Refused(false); }
    var selected, entries, claimed := SelectEntries(fields, depth, nodes + 1);
    if !selected { return Refused(false); }
    Selection(fields, |fields|, depth);
    var paid := wire + 2 + Commas(|entries|);
    if paid > maxBytes { return Refused(true); }
    Push(work, Freeze);
    var ok, pushed, paidKeys := PushFields(work + [Freeze], entries, depth, paid, maxBytes);
    if !ok { return Refused(true); }
    return Expanded(pushed, paidKeys, claimed);
  }

  /** The cost of a leaf, or nothing when it is not JSON or does not fit. */
  method LeafBytes(v: Value, remaining: nat) returns (json: bool, bytes: int)
    requires !v.Arr? && !v.Rec? && remaining <= MAX_SAFE_INTEGER
    ensures json <==> !v.NonFinite? && !v.Undefined? && !v.Foreign?
    ensures json && 0 <= bytes ==> forall depth :: Of(v, depth).bytes == bytes
    ensures json && bytes < 0 ==> forall depth :: Of(v, depth).bytes > remaining
  {
    match v
    case Null => return true, 4;
    case Bool(b) => return true, if b then 4 else 5;
    case Num(digits) => return true, |digits|;
    case Str(s) =>
      var ok, n := JsonStringWireBytes(s, remaining);
      return true, if ok then n else -1;
    case _ => return false, 0;
  }

  /** One popped value. */
  method VisitValue(work: seq<Work>, v: Value, depth: nat, wire: nat, nodes: nat, maxBytes: nat)
    returns (e: Expansion)
    requires nodes <= MAX_NODES && wire <= maxBytes <= MAX_SAFE_INTEGER
    ensures Justified(e, v, depth, work, wire, nodes, maxBytes)
  {
    if depth > MAX_DEPTH || nodes + 1 > MAX_NODES { return Refused(false); }
    if v.Arr? {
      e := ExpandArray(work, v, depth, wire, nodes, maxBytes);
    } else if v.Rec? {
      e := ExpandRecord(work, v, depth, wire, nodes, maxBytes);
    } else {
      var json, bytes := LeafBytes(v, maxBytes - wire);
      if !json { return Refused(false); }
      if bytes < 0 || wire + bytes > maxBytes { return Refused(true); }
      e := Expanded(work, wire + bytes, nodes + 1);
    }
  }

  /** The loop's balance: what was paid and claimed, and what is on the stack. */
  ghost predicate Balanced(goal: Measure, wire: nat, nodes: nat, work: seq<Work>) {
    Adds(goal, Measure(wire, nodes, true), Whole(work))
  }

  lemma AtStart(input: Value)
    ensures Balanced(Of(input, 0), 0, 0, [Visit(input, 0)])
  {
    assert [Visit(input, 0)] == [] + [Visit(input, 0)];
    Push([], Visit(input, 0));
  }

  lemma AfterVisit(e: Expansion, work: seq<Work>, wire: nat, nodes: nat, maxBytes: nat, goal: Measure)
    requires work != [] && work[|work| - 1].Visit?
    requires Balanced(goal, wire, nodes, work)
    requires var w := work[|work| - 1];
      Justified(e, w.value, w.depth, work[..|work| - 1], wire, nodes, maxBytes)
    ensures e.Refused? && e.byBytes ==> goal.bytes > maxBytes
    ensures e.Refused? && !e.byBytes ==> !goal.legal || goal.nodes > MAX_NODES
    ensures e.Expanded? ==> Balanced(goal, e.wire, e.nodes, e.work) && Remaining(e.work) < Remaining(work)
  {
    Pop(work);
  }

  lemma AfterFreeze(work: seq<Work>, wire: nat, nodes: nat, goal: Measure)
    requires work != [] && work[|work| - 1].Freeze?
    requires Balanced(goal, wire, nodes, work)
    ensures Balanced(goal, wire, nodes, work[..|work| - 1]) && Remaining(work[..|work| - 1]) < Remaining(work)
  {
    Pop(work);
  }

  ghost function Remaining(work: seq<Work>): nat {
    2 * Whole(work).nodes + Freezes(work, |work|)
  }

  /** The traversal: pop, pay and claim, until the stack is empty or a limit refuses. */
  method Traverse(input: Value, maxBytes: nat, ghost goal: Measure) returns (r: Outcome)
    requires maxBytes <= MAX_SAFE_INTEGER
    requires Balanced(goal, 0, 0, [Visit(input, 0)])
    ensures r.Accepted? <==> goal.legal && goal.nodes <= MAX_NODES && goal.bytes <= maxBytes
    ensures r.Accepted? ==> r.wireBytes == goal.bytes && r.nodes == goal.nodes
    ensures r.TooLarge? ==> goal.bytes > maxBytes
    ensures r.Invalid? ==> !goal.legal || goal.nodes > MAX_NODES
  {
    var wire: nat, nodes: nat := 0, 0;
    var work := [Visit(input, 0)];
    while work != []
      invariant wire <= maxBytes && nodes <= MAX_NODES
      invariant Balanced(goal, wire, nodes, work)
      decreases Remaining(work)
    {
      var current, rest := work[|work| - 1], work[..|work| - 1];
      if current.Freeze? {
        AfterFreeze(work, wire, nodes, goal);
        work := rest;
      } else {
        var e := VisitValue(rest, current.value, current.depth, wire, nodes, maxBytes);
        AfterVisit(e, work, wire, nodes, maxBytes, goal);
        if e.Refused? {
          return if e.byBytes then TooLarge else Invalid;
        }
        work, wire, nodes := e.work, e.wire, e.nodes;
      }
    }
    return Accepted(wire, nodes);
  }

  /** Admission of a value: accepted exactly when every part is JSON within the depth
      limit, the nodes are within their limit and the serialization fits; the reported
      size is the length of the serialization. */
  method Canonicalize(input: Value, maxBytes: nat) returns (r: Outcome)
    requires maxBytes <= MAX_SAFE_INTEGER
    ensures r.Accepted? <==>
      Of(input, 0).legal && Of(input, 0).nodes <= MAX_NODES && |Serialize(input)| <= maxBytes
    ensures r.Accepted? ==> r.wireBytes == |Serialize(input)| && r.nodes == Of(input, 0).nodes
    ensures r.TooLarge? ==> |Serialize(input)| > maxBytes
    ensures r.Invalid? ==> !Of(input, 0).legal || Of(input, 0).nodes > MAX_NODES
  {
    BytesAreLength(input, 0);
    AtStart(input);
    r := Traverse(input, maxBytes, Of(input, 0));
  }
}
