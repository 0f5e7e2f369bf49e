/** Scheduling of queued reads. */
module Lanes {
  // One class per method, one bounded bypass of the head.

  import opened Options
  import opened Mutations

  datatype Method =
    | Complete | ResolveCompletion | Define | TypeDefinitions | DocumentHighlights | InlayHints
    | FoldingRanges | FormatDocument | DocumentSymbols | CodeActions | ResolveCodeAction | Hover
    | SignatureHelp | PrepareCallHierarchy | OutgoingCalls | Diagnose | Implementations | References
    | PrepareRename | Rename | IncomingCalls | SemanticReadiness

  datatype Lane = Completion | Foreground | Interactive | Diagnostic | Global

  function LaneOf(m: Method): Lane {
    match m
    case Complete => Completion
    case ResolveCompletion => Completion
    case Define => Foreground
    case TypeDefinitions => Foreground
    case DocumentHighlights => Interactive
    case InlayHints => Interactive
    case FoldingRanges => Interactive
    case FormatDocument => Foreground
    case DocumentSymbols => Interactive
    case CodeActions => Interactive
    case ResolveCodeAction => Foreground
    case Hover => Foreground
    case SignatureHelp => Foreground
    case PrepareCallHierarchy => Foreground
    case OutgoingCalls => Foreground
    case Diagnose => Diagnostic
    case Implementations => Global
    case References => Global
    case PrepareRename => Global
    case Rename => Global
    case IncomingCalls => Global
    case SemanticReadiness => Global
  }

  function Priority(l: Lane): int {
    match l
    case Completion => 3
    case Foreground => 2
    case Interactive => 1
    case Diagnostic => 0
    case Global => -1
  }

  /** What the endpoint does with the record once it is encoded. */
  datatype Fate = Sends | SendingThrows

  /** A queued read. `handle` is the identity of the record, `generation` the number of
      mutations accepted before it, `bytes` the size of its input as JSON; `disk` says
      that it carries the text of a file that is not open. */
  datatype Read = Read(handle: nat, op: Method, uri: Uri, version: Option<nat>, disk: bool, bytes: nat,
                       generation: nat, fate: Fate)

  function Rank(r: Read): int { Priority(LaneOf(r.op)) }

  // ----- Selection -----

  /** The first read of an interactive lane, or -1. */
  function FirstInteractive(pending: seq<Read>, from: nat): (index: int)
    requires from <= |pending|
    ensures index == -1 || from <= index < |pending|
    decreases |pending| - from
  {
    if from == |pending| then -1
    else if Rank(pending[from]) > 0 then from
    else FirstInteractive(pending, from + 1)
  }

  /** The scan for a higher lane: the best index so far, stopping at a queued global. */
  function Best(pending: seq<Read>, selected: nat, from: nat): (index: nat)
    requires selected < from <= |pending|
    ensures selected <= index < |pending|
    decreases |pending| - from
  {
    if from == |pending| || Rank(pending[from]) < 0 then selected
    else Best(pending, if Rank(pending[from]) > Rank(pending[selected]) then from else selected, from + 1)
  }

  datatype Selection = Selection(index: int, bypassed: Option<nat>)

  function Select(pending: seq<Read>, detached: bool, bypassed: Option<nat>): (s: Selection)
    ensures s.index == -1 || 0 <= s.index < |pending|
  {
    if pending == [] then Selection(-1, None)
    else if detached then
      Selection(FirstInteractive(pending, 0), if bypassed == Some(pending[0].handle) then bypassed else None)
    else if Rank(pending[0]) >= 0 && bypassed != Some(pending[0].handle) then
      var index := Best(pending, 0, 1);
      Selection(index, if index > 0 then Some(pending[0].handle) else None)
    else Selection(0, None)
  }

  function Without(pending: seq<Read>, index: int): seq<Read> {
    if 0 <= index < |pending| then pending[..index] + pending[index + 1..] else pending
  }

  method FindInteractive(pending: seq<Read>) returns (index: int)
    ensures index == FirstInteractive(pending, 0)
  {
    index := 0;
    while index < |pending| && Rank(pending[index]) <= 0
      invariant 0 <= index <= |pending|
      invariant FirstInteractive(pending, 0) == FirstInteractive(pending, index)
    {
      index := index + 1;
    }
    if index == |pending| { index := -1; }
  }

  method FindBest(pending: seq<Read>) returns (selected: nat)
    requires pending != []
    ensures selected == Best(pending, 0, 1)
  {
    selected := 0;
    var index := 1;
    while index < |pending| && Rank(pending[index]) >= 0
      invariant 0 <= selected < index <= |pending|
      invariant Best(pending, 0, 1) == Best(pending, selected, index)
    {
      if Rank(pending[index]) > Rank(pending[selected]) {
        selected := index;
      }
      index := index + 1;
    }
  }

  /** The in-place form: scan, then splice the selected read out of the queue. */
  method TakeNext(pending: seq<Read>, detached: bool, bypassed: Option<nat>)
    returns (taken: Option<Read>, rest: seq<Read>, next: Option<nat>)
    ensures var s := Select(pending, detached, bypassed);
      && next == s.bypassed && rest == Without(pending, s.index)
      && taken == if s.index < 0 then None else Some(pending[s.index])
  {
    if pending == [] { return None, [], None; }
    var oldest := pending[0];
    if detached {
      var index := FindInteractive(pending);
      next := if bypassed == Some(oldest.handle) then bypassed else None;
      if index < 0 { return None, pending, next; }
      return Some(pending[index]), Without(pending, index), next;
    }
    var selected := 0;
    if Rank(oldest) >= 0 && bypassed != Some(oldest.handle) {
      selected := FindBest(pending);
    }
    next := if selected > 0 then Some(oldest.handle) else None;
    return Some(pending[selected]), Without(pending, selected), next;
  }

  // ----- Order -----

  lemma {:induction false} FirstInteractiveIsFirst(pending: seq<Read>, from: nat)
    requires from <= |pending|
    ensures var index := FirstInteractive(pending, from);
      && (index >= 0 ==> Rank(pending[index]) > 0 && forall j :: from <= j < index ==> Rank(pending[j]) <= 0)
      && (index < 0 ==> forall j :: from <= j < |pending| ==> Rank(pending[j]) <= 0)
    decreases |pending| - from
  {
    if from < |pending| && Rank(pending[from]) <= 0 {
      FirstInteractiveIsFirst(pending, from + 1);
    }
  }

  /** No global read stands at or before `k`. */
  predicate BeforeGlobals(pending: seq<Read>, k: nat)
    requires k < |pending|
  {
    forall j :: 0 <= j <= k ==> LaneOf(pending[j].op) != Global
  }

  lemma {:induction false} BestIsFirstOfItsLane(pending: seq<Read>, selected: nat, from: nat)
    requires selected < from <= |pending|
    requires forall j :: 0 <= j < selected ==> Rank(pending[j]) < Rank(pending[selected])
    requires forall j :: 0 <= j < from ==> 0 <= Rank(pending[j]) <= Rank(pending[selected])
    ensures var b := Best(pending, selected, from);
      && (forall j :: 0 <= j < b ==> 0 <= Rank(pending[j]) < Rank(pending[b]))
      && (forall j :: 0 <= j < |pending| && BeforeGlobals(pending, j) ==> Rank(pending[j]) <= Rank(pending[b]))
    decreases |pending| - from
  {
    if from < |pending| && Rank(pending[from]) >= 0 {
      var s := if Rank(pending[from]) > Rank(pending[selected]) then from else selected;
      BestIsFirstOfItsLane(pending, s, from + 1);
    } else if from < |pending| {
      assert forall j :: from <= j < |pending| ==> !BeforeGlobals(pending, j);
    }
  }

  /** In both modes the selected read is the oldest of its lane; while no reference is
      detached it passes no global read. */
  lemma SelectionKeepsOrder(pending: seq<Read>, detached: bool, bypassed: Option<nat>)
    ensures var i := Select(pending, detached, bypassed).index; forall j :: 0 <= j < i ==>
      && LaneOf(pending[j].op) != LaneOf(pending[i].op)
      && (!detached ==> LaneOf(pending[j].op) != Global)
  {
    if pending != [] && detached {
      FirstInteractiveIsFirst(pending, 0);
    } else if pending != [] && Rank(pending[0]) >= 0 {
      BestIsFirstOfItsLane(pending, 0, 1);
    }
  }

  /** The first of the most urgent reads that no global read precedes. */
  predicate MostUrgent(pending: seq<Read>, k: nat) {
    && k < |pending| && BeforeGlobals(pending, k)
    && (forall j :: 0 <= j < |pending| && BeforeGlobals(pending, j) ==> Rank(pending[j]) <= Rank(pending[k]))
    && forall j :: 0 <= j < k ==> Rank(pending[j]) < Rank(pending[k])
  }

  predicate FirstOfInteractive(pending: seq<Read>, k: nat) {
    && k < |pending| && Rank(pending[k]) >= Priority(Interactive)
    && forall j :: 0 <= j < k ==> Rank(pending[j]) < Priority(Interactive)
  }

  /** What is taken. With a detached reference, the first read of an interactive lane, and
      nothing exactly when there is none. Otherwise a head that is global or was passed
      once; else the first of the most urgent reads before any global one. The head is
      marked exactly when it is passed, and stays marked while a reference is detached. */
  lemma SelectionExactly(pending: seq<Read>, detached: bool, bypassed: Option<nat>)
    requires pending != []
    ensures var s := Select(pending, detached, bypassed);
      var head, passed := pending[0], bypassed == Some(pending[0].handle);
      if detached then
        && (s.bypassed == if passed then bypassed else None)
        && (forall k: nat :: FirstOfInteractive(pending, k) <==> s.index == k)
      else
        && s.bypassed == (if s.index > 0 then Some(head.handle) else None)
        && (if LaneOf(head.op).Global? || passed then s.index == 0 else s.index >= 0 && MostUrgent(pending, s.index))
  {
    if detached {
      FirstInteractiveIsFirst(pending, 0);
    } else if Rank(pending[0]) >= 0 {
      BestIsFirstOfItsLane(pending, 0, 1);
      var b := Best(pending, 0, 1);
      BestIsBeforeGlobals(pending, b);
    }
  }

  lemma BestIsBeforeGlobals(pending: seq<Read>, b: nat)
    requires b < |pending| && Rank(pending[0]) >= 0
    requires forall j :: 0 <= j < b ==> 0 <= Rank(pending[j]) < Rank(pending[b])
    ensures BeforeGlobals(pending, b)
  {
    forall j | 0 <= j <= b ensures LaneOf(pending[j].op) != Global {
      assert j < b ==> Rank(pending[j]) >= 0;
      assert b > 0 ==> Rank(pending[0]) < Rank(pending[b]);
    }
  }

  /** While a reference is detached no global read is taken, `references` included; so the
      supervisor never finds its detached lane busy. */
  lemma DetachedLaneIsNeverBusy(pending: seq<Read>, bypassed: Option<nat>)
    ensures var i := Select(pending, true, bypassed).index; i >= 0 ==> LaneOf(pending[i].op) != Global
  {
    FirstInteractiveIsFirst(pending, 0);
  }

  // ----- Fairness -----

  datatype QueueEvent = Arrive(read: Read) | Take | Withdraw(handle: nat)

  datatype Queue = Queue(items: seq<Read>, bypassed: Option<nat>)

  ghost predicate Distinct(items: seq<Read>) {
    forall i, j :: 0 <= i < j < |items| ==> items[i].handle != items[j].handle
  }

  function IndexBelow(items: seq<Read>, handle: nat, n: nat): (i: int)
    requires n <= |items|
    ensures i == -1 || (0 <= i < n && items[i].handle == handle)
  {
    if n == 0 then -1
    else if items[n - 1].handle == handle then n - 1
    else IndexBelow(items, handle, n - 1)
  }

  function IndexOf(items: seq<Read>, handle: nat): (i: int)
    ensures i == -1 || (0 <= i < |items| && items[i].handle == handle)
  {
    IndexBelow(items, handle, |items|)
  }

  /** A new read joins at the tail; `Take` is one pump with no detached reference. */
  function After(q: Queue, e: QueueEvent): Queue {
    match e
    case Arrive(r) => q.(items := q.items + [r])
    case Take =>
      var s := Select(q.items, false, q.bypassed);
      Queue(Without(q.items, s.index), s.bypassed)
    case Withdraw(h) => q.(items := Without(q.items, IndexOf(q.items, h)))
  }

  /** Records are new objects: an arriving handle was never used before. */
  ghost predicate Fresh(q: Queue, e: QueueEvent) {
    e.Arrive? ==>
      q.bypassed != Some(e.read.handle) && forall j :: 0 <= j < |q.items| ==> q.items[j].handle != e.read.handle
  }

  function Takes(es: seq<QueueEvent>): nat {
    if es == [] then 0 else Takes(es[1..]) + if es[0].Take? then 1 else 0
  }

  ghost predicate Legal(q: Queue, es: seq<QueueEvent>)
    decreases |es|
  {
    es == [] || (Fresh(q, es[0]) && Legal(After(q, es[0]), es[1..]))
  }

  function Run(q: Queue, es: seq<QueueEvent>): Queue
    decreases |es|
  {
    if es == [] then q else Run(After(q, es[0]), es[1..])
  }

  ghost predicate HeadPassed(q: Queue) {
    q.items != [] && q.bypassed == Some(q.items[0].handle)
  }

  /** The takes a read at `index` can still wait for: two per read ahead of it, one less
      when the head has already been passed. */
  ghost function Wait(q: Queue, index: nat): nat {
    2 * index + if HeadPassed(q) then 1 else 2
  }

  lemma WithoutIndex(items: seq<Read>, at: nat, k: nat)
    requires Distinct(items) && at < |items| && k < |items|
    ensures Distinct(Without(items, at))
    ensures k != at ==> var k' := if k < at then k else k - 1;
      k' < |Without(items, at)| && Without(items, at)[k'] == items[k]
    ensures k == at ==> forall j :: 0 <= j < |Without(items, at)| ==> Without(items, at)[j].handle != items[k].handle
  {
  }

  /** Where the read at `k` stands after one removal, or -1 when it was the one removed. */
  function Shifted(at: int, k: nat): int {
    if at < 0 || k < at then k else if k == at then -1 else k - 1
  }

  function Removed(q: Queue, e: QueueEvent): int {
    match e
    case Arrive(_) => -1
    case Take => Select(q.items, false, q.bypassed).index
    case Withdraw(h) => IndexOf(q.items, h)
  }

  function Place(q: Queue, e: QueueEvent, k: nat): int {
    Shifted(Removed(q, e), k)
  }

  lemma RemovalPlaces(items: seq<Read>, at: int, k: nat)
    requires Distinct(items) && k < |items| && at < |items|
    ensures Distinct(Without(items, at))
    ensures var p := Shifted(at, k); if p >= 0 then p < |Without(items, at)| && Without(items, at)[p] == items[k]
      else forall j :: 0 <= j < |Without(items, at)| ==> Without(items, at)[j].handle != items[k].handle
  {
    if at >= 0 {
      WithoutIndex(items, at, k);
    }
  }

  /** After one event the read is where `Place` says, or gone. */
  lemma EventPlaces(q: Queue, e: QueueEvent, k: nat)
    requires Distinct(q.items) && k < |q.items| && Fresh(q, e)
    ensures Distinct(After(q, e).items)
    ensures var p := Place(q, e, k); p >= 0 ==> p < |After(q, e).items| && After(q, e).items[p] == q.items[k]
    ensures Place(q, e, k) < 0 ==>
      forall j :: 0 <= j < |After(q, e).items| ==> After(q, e).items[j].handle != q.items[k].handle
  {
    if !e.Arrive? {
      RemovalPlaces(q.items, Removed(q, e), k);
    }
  }

  /** A take that passes the head marks it; a take of the head marks nothing. */
  lemma TakeMarksHead(q: Queue)
    requires q.items != []
    ensures var at := Select(q.items, false, q.bypassed).index;
      && at >= 0 && (at == 0 ==> !HeadPassed(After(q, Take))) && (at > 0 ==> !HeadPassed(q))
  {
  }

  lemma WithdrawKeepsMark(q: Queue, h: nat)
    requires Distinct(q.items) && q.items != [] && IndexOf(q.items, h) != 0
    ensures HeadPassed(After(q, Withdraw(h))) == HeadPassed(q)
  {
    assert After(q, Withdraw(h)).items[0] == q.items[0];
  }

  lemma ArrivalKeepsMark(q: Queue, r: Read)
    requires q.items != []
    ensures HeadPassed(After(q, Arrive(r))) == HeadPassed(q)
  {
  }

  /** Every take shortens the wait of every read that stays; nothing lengthens it. */
  lemma EventShortensWait(q: Queue, e: QueueEvent, k: nat)
    requires Distinct(q.items) && k < |q.items| && Fresh(q, e) && Place(q, e, k) >= 0
    ensures Wait(After(q, e), Place(q, e, k)) + (if e.Take? then 1 else 0) <= Wait(q, k)
  {
    match e {
      case Take => TakeShortensWait(q, k);
      case Arrive(r) => ArrivalKeepsMark(q, r);
      case Withdraw(h) => if IndexOf(q.items, h) != 0 { WithdrawKeepsMark(q, h); }
    }
  }

  lemma TakeShortensWait(q: Queue, k: nat)
    requires k < |q.items| && Place(q, Take, k) >= 0
    ensures Wait(After(q, Take), Place(q, Take, k)) < Wait(q, k)
  {
    TakeMarksHead(q);
  }

  lemma {:induction false} GoneStaysGone(q: Queue, es: seq<QueueEvent>, handle: nat)
    requires Legal(q, es)
    requires forall j :: 0 <= j < |q.items| ==> q.items[j].handle != handle
    requires forall e :: e in es && e.Arrive? ==> e.read.handle != handle
    ensures forall j :: 0 <= j < |Run(q, es).items| ==> Run(q, es).items[j].handle != handle
    decreases |es|
  {
    if es != [] {
      assert es[0] in es;
      GoneStaysGone(After(q, es[0]), es[1..], handle);
    }
  }

  lemma {:induction false} WaitBoundsTakes(q: Queue, es: seq<QueueEvent>, k: nat)
    requires Distinct(q.items) && k < |q.items| && Legal(q, es)
    requires forall e :: e in es && e.Arrive? ==> e.read.handle != q.items[k].handle
    requires Takes(es) >= Wait(q, k)
    ensures forall j :: 0 <= j < |Run(q, es).items| ==> Run(q, es).items[j].handle != q.items[k].handle
    decreases |es|
  {
    assert es[0] in es;
    EventPlaces(q, es[0], k);
    var k' := Place(q, es[0], k);
    if k' >= 0 {
      EventShortensWait(q, es[0], k);
      WaitBoundsTakes(After(q, es[0]), es[1..], k');
    } else {
      GoneStaysGone(After(q, es[0]), es[1..], q.items[k].handle);
    }
  }

  /** Fairness: whatever arrives at the tail and whatever is withdrawn, the read at index
      `k` has left the queue after 2(k + 1) takes. */
  lemma TakenWithinBound(q: Queue, es: seq<QueueEvent>, k: nat)
    requires Distinct(q.items) && k < |q.items| && Legal(q, es)
    requires forall e :: e in es && e.Arrive? ==> e.read.handle != q.items[k].handle
    requires Takes(es) >= 2 * (k + 1)
    ensures forall j :: 0 <= j < |Run(q, es).items| ==> Run(q, es).items[j].handle != q.items[k].handle
  {
    WaitBoundsTakes(q, es, k);
  }
}
