/** Coalescing of equal requests in flight. */
module InFlight {
  // One operation has many waiters and is aborted when the last of them leaves before it
  // settles.

  datatype Operation = Operation(key: string, waiters: nat, settled: bool, aborted: bool)

  /** `operations` are all operations ever started, by number; `current` is the one a new
      request for a key joins. `waits` is bookkeeping: which waiter still waits for which
      operation. */
  datatype State = State(operations: seq<Operation>, current: map<string, nat>, waits: map<nat, nat>, nextWait: nat)

  const Start := State([], map[], map[], 0)

  // ----- Steps -----

  /** The operation a request for `key` waits for, and whether it is new. */
  function Chosen(s: State, key: string): nat {
    if key in s.current then s.current[key] else |s.operations|
  }

  function Opened(s: State, key: string): State {
    if key in s.current then s
    else
      s.(operations := s.operations + [Operation(key, 0, false, false)], current := s.current[key := |s.operations|])
  }

  function Joined(s: State, op: nat): State
    requires op < |s.operations|
  {
    s.(operations := s.operations[op := s.operations[op].(waiters := s.operations[op].waiters + 1)],
       waits := s.waits[s.nextWait := op], nextWait := s.nextWait + 1)
  }

  predicate Indexed(s: State) {
    && (forall key :: key in s.current ==> s.current[key] < |s.operations|)
    && forall x :: x in s.waits ==> s.waits[x] < |s.operations|
  }

  function Run(s: State, key: string): State
    requires Indexed(s)
  {
    Joined(Opened(s, key), Chosen(s, key))
  }

  /** A waiter is done: aborted by its own signal or served. */
  function Leave(s: State, waiter: nat): State
    requires Indexed(s)
  {
    if waiter !in s.waits then s
    else
      var op := s.waits[waiter];
      var o := s.operations[op];
      var left := if o.waiters == 0 then 0 else o.waiters - 1;
      var t := s.(waits := s.waits - {waiter});
      if left != 0 then t.(operations := s.operations[op := o.(waiters := left)])
      else
        t.(operations := s.operations[op := o.(waiters := 0, aborted := o.aborted || !o.settled)],
           current := if o.key in s.current && s.current[o.key] == op then s.current - {o.key} else s.current)
  }

  /** The operation's promise settled. */
  function Settle(s: State, op: nat): State {
    if op >= |s.operations| then s
    else
      var o := s.operations[op];
      s.(operations := s.operations[op := o.(settled := true)],
         current := if o.waiters == 0 && o.key in s.current && s.current[o.key] == op then s.current - {o.key}
                    else s.current)
  }

  datatype Event = Running(key: string) | Leaving(waiter: nat) | Settling(op: nat)

  function Handle(s: State, e: Event): State
    requires Indexed(s)
  {
    match e
    case Running(key) => Run(s, key)
    case Leaving(waiter) => Leave(s, waiter)
    case Settling(op) => Settle(s, op)
  }

  // ----- Every run -----

  function WaitersOf(waits: map<nat, nat>, op: nat): set<nat> {
    set x | x in waits && waits[x] == op
  }

  predicate Accounted(s: State, op: nat)
    requires op < |s.operations|
  {
    var o := s.operations[op];
    && o.waiters == |WaitersOf(s.waits, op)|
    && (o.aborted ==> o.waiters == 0)
    && (o.waiters == 0 && !o.settled ==> o.aborted)
  }

  predicate Current(s: State, key: string)
    requires Indexed(s) && key in s.current
  {
    var o := s.operations[s.current[key]];
    o.key == key && o.waiters > 0 && !o.aborted
  }

  /** Whoever is waited for can be joined. */
  predicate Joinable(s: State, op: nat)
    requires op < |s.operations|
  {
    var key := s.operations[op].key;
    s.operations[op].waiters > 0 ==> key in s.current && s.current[key] == op
  }

  predicate Inv(s: State) {
    && Indexed(s)
    && (forall op: nat :: op < |s.operations| ==> Accounted(s, op) && Joinable(s, op))
    && (forall key :: key in s.current ==> Current(s, key))
    && (forall x :: x in s.waits ==> x < s.nextWait)
  }

  lemma WaitAdded(waits: map<nat, nat>, x: nat, op: nat, other: nat)
    requires x !in waits
    ensures |WaitersOf(waits[x := op], other)| == |WaitersOf(waits, other)| + if other == op then 1 else 0
  {
    if other == op {
      assert WaitersOf(waits[x := op], other) == WaitersOf(waits, other) + {x};
    } else {
      assert WaitersOf(waits[x := op], other) == WaitersOf(waits, other);
    }
  }

  lemma WaitRemoved(waits: map<nat, nat>, x: nat, other: nat)
    requires x in waits
    ensures |WaitersOf(waits - {x}, other)| == |WaitersOf(waits, other)| - if other == waits[x] then 1 else 0
  {
    assert WaitersOf(waits - {x}, other) == WaitersOf(waits, other) - {x};
  }

  lemma RunKeepsInv(s: State, key: string)
    requires Inv(s)
    ensures Inv(Run(s, key)) && !Run(s, key).operations[Chosen(s, key)].aborted
  {
    var op, t := Chosen(s, key), Run(s, key);
    assert key in s.current ==> Current(s, key);
    if key !in s.current { assert WaitersOf(s.waits, op) == {}; }
    forall other: nat | other < |t.operations| ensures Accounted(t, other) && Joinable(t, other) {
      WaitAdded(s.waits, s.nextWait, op, other);
      if other < |s.operations| { assert Accounted(s, other) && Joinable(s, other); }
    }
    forall k | k in t.current ensures Current(t, k) {
      if k in s.current { assert Current(s, k); }
    }
  }

  lemma LeaveKeepsInv(s: State, waiter: nat)
    requires Inv(s)
    ensures Inv(Leave(s, waiter))
  {
    if waiter in s.waits {
      var op, t := s.waits[waiter], Leave(s, waiter);
      assert waiter in WaitersOf(s.waits, op);
      assert Accounted(s, op);
      forall other: nat | other < |t.operations| ensures Accounted(t, other) && Joinable(t, other) {
        WaitRemoved(s.waits, waiter, other);
        assert Accounted(s, other) && Joinable(s, other);
      }
      forall k | k in t.current ensures Current(t, k) { assert Current(s, k); }
    }
  }

  lemma SettleKeepsInv(s: State, op: nat)
    requires Inv(s)
    ensures Inv(Settle(s, op))
  {
    var t := Settle(s, op);
    forall other: nat | other < |t.operations| ensures Accounted(t, other) && Joinable(t, other) {
      assert Accounted(s, other) && Joinable(s, other);
    }
    forall k | k in t.current ensures Current(t, k) { assert Current(s, k); }
  }

  lemma HandleKeepsInv(s: State, e: Event)
    requires Inv(s)
    ensures Inv(Handle(s, e))
  {
    match e
    case Running(key) => RunKeepsInv(s, key);
    case Leaving(waiter) => LeaveKeepsInv(s, waiter);
    case Settling(op) => SettleKeepsInv(s, op);
  }

  /** The states that some run reaches in `n` events. */
  ghost predicate Reachable(s: State, n: nat)
    decreases n
  {
    if n == 0 then s == Start
    else exists t, e :: Reachable(t, n - 1) && Indexed(t) && s == Handle(t, e)
  }

  lemma {:induction false} InvInEveryRun(s: State, n: nat)
    requires Reachable(s, n)
    ensures Inv(s)
    decreases n
  {
    if n > 0 {
      var t, e :| Reachable(t, n - 1) && Indexed(t) && s == Handle(t, e);
      InvInEveryRun(t, n - 1);
      HandleKeepsInv(t, e);
    }
  }

  lemma OnlyWaiter(s: State, op: nat, waiter: nat)
    requires waiter in s.waits && s.waits[waiter] == op
    ensures |WaitersOf(s.waits, op)| == 1 <==> WaitersOf(s.waits, op) == {waiter}
  {
    WaitRemoved(s.waits, waiter, op);
    assert WaitersOf(s.waits, op) == WaitersOf(s.waits - {waiter}, op) + {waiter};
  }

  lemma LeavingAborts(s: State, waiter: nat, op: nat)
    requires Indexed(s) && waiter in s.waits && s.waits[waiter] == op && Accounted(s, op)
    requires !s.operations[op].aborted
    ensures Leave(s, waiter).operations[op].aborted <==>
      WaitersOf(s.waits, op) == {waiter} && !s.operations[op].settled
  {
    OnlyWaiter(s, op, waiter);
    assert waiter in WaitersOf(s.waits, op);
  }

  lemma OthersDoNotAbort(s: State, e: Event, op: nat)
    requires Indexed(s) && op < |s.operations| && !s.operations[op].aborted
    requires !(e.Leaving? && e.waiter in s.waits && s.waits[e.waiter] == op)
    ensures op < |Handle(s, e).operations| && !Handle(s, e).operations[op].aborted
  {
  }

  /** In every run, an operation becomes aborted exactly when its last waiter leaves before
      it has settled. */
  lemma AbortedExactlyWhenLastWaiterLeaves(s: State, n: nat, e: Event, op: nat)
    requires Reachable(s, n) && Indexed(s) && op < |s.operations| && !s.operations[op].aborted
    ensures op < |Handle(s, e).operations|
    ensures Handle(s, e).operations[op].aborted <==>
      && e.Leaving? && WaitersOf(s.waits, op) == {e.waiter} && !s.operations[op].settled
  {
    InvInEveryRun(s, n);
    assert Accounted(s, op);
    if e.Leaving? && e.waiter in s.waits && s.waits[e.waiter] == op {
      LeavingAborts(s, e.waiter, op);
    } else {
      OthersDoNotAbort(s, e, op);
      assert e.Leaving? ==> e.waiter !in WaitersOf(s.waits, op);
    }
  }

  /** In every run, a new waiter joins an operation that is not aborted, and an aborted one
      stays aborted without waiters. */
  lemma NobodyJoinsAnAbortedOperation(s: State, n: nat, e: Event)
    requires Reachable(s, n) && Indexed(s)
    ensures e.Running? ==>
      && Chosen(s, e.key) < |Handle(s, e).operations|
      && !Handle(s, e).operations[Chosen(s, e.key)].aborted
      && s.nextWait in Handle(s, e).waits && Handle(s, e).waits[s.nextWait] == Chosen(s, e.key)
    ensures forall op: nat :: op < |s.operations| && s.operations[op].aborted ==>
      && op < |Handle(s, e).operations|
      && Handle(s, e).operations[op].aborted && WaitersOf(Handle(s, e).waits, op) == {}
  {
    InvInEveryRun(s, n);
    HandleKeepsInv(s, e);
    if e.Running? { RunKeepsInv(s, e.key); }
    forall op: nat | op < |s.operations| && s.operations[op].aborted
      ensures op < |Handle(s, e).operations|
      ensures Handle(s, e).operations[op].aborted && WaitersOf(Handle(s, e).waits, op) == {}
    {
      assert Accounted(s, op);
      assert e.Running? && e.key in s.current ==> Current(s, e.key);
      assert Accounted(Handle(s, e), op);
    }
  }

  /** In every run, a request starts an operation exactly when no operation of its key has a
      waiter; otherwise it joins the one that has. */
  lemma EqualRequestsShare(s: State, n: nat, key: string)
    requires Reachable(s, n) && Indexed(s)
    ensures var t := Handle(s, Running(key));
      && Chosen(s, key) < |t.operations| && t.operations[Chosen(s, key)].key == key
      && if exists op: nat :: op < |s.operations| && s.operations[op].key == key && s.operations[op].waiters > 0 then
           && |t.operations| == |s.operations|
           && s.operations[Chosen(s, key)].key == key && s.operations[Chosen(s, key)].waiters > 0
         else |t.operations| == |s.operations| + 1 && Chosen(s, key) == |s.operations|
  {
    InvInEveryRun(s, n);
    if op: nat :| op < |s.operations| && s.operations[op].key == key && s.operations[op].waiters > 0 {
      assert Joinable(s, op);
    } else if key in s.current {
      assert Current(s, key);
    }
  }

  // ----- The object -----

  /** An operation shared by its waiters. */
  class SharedOperation {
    var waiters: nat
    var settled: bool
    var aborted: bool

    constructor ()
      ensures waiters == 0 && !settled && !aborted
    {
      waiters, settled, aborted := 0, false, false;
    }
  }

  class InFlightRequestCoalescer {
    var operations: map<string, SharedOperation>

    /** Every operation that can be joined has a waiter and is not aborted. */
    ghost predicate Valid()
      reads this, operations.Values
    {
      && (forall key :: key in operations ==> operations[key].waiters > 0 && !operations[key].aborted)
      && forall a, b :: a in operations && b in operations && operations[a] == operations[b] ==> a == b
    }

    constructor ()
      ensures Valid() && operations == map[]
    {
      operations := map[];
    }

    /** Joins the operation in flight for `key`, or starts one. */
    method Join(key: string) returns (o: SharedOperation)
      requires Valid()
      modifies this, operations.Values
      ensures Valid() && key in operations && operations[key] == o && !o.aborted
      ensures key in old(operations) ==> operations == old(operations) && o.waiters == old(operations[key].waiters) + 1
      ensures key !in old(operations) ==> fresh(o) && operations == old(operations)[key := o] && o.waiters == 1
    {
      if key in operations {
        o := operations[key];
      } else {
        o := new SharedOperation();
        operations := operations[key := o];
      }
      o.waiters := o.waiters + 1;
    }

    /** One waiter of `o` is done; the last one takes the operation out, and aborts it when it
        has not settled. */
    method Release(key: string, o: SharedOperation)
      requires Valid() && o.waiters > 0 && forall k :: k in operations && operations[k] == o ==> k == key
      modifies this, o
      ensures Valid() && o.waiters == old(o.waiters) - 1 && o.settled == old(o.settled)
      ensures o.aborted == (old(o.aborted) || (o.waiters == 0 && !o.settled))
      ensures operations ==
        if o.waiters == 0 && key in old(operations) && old(operations)[key] == o then old(operations) - {key}
        else old(operations)
    {
      o.waiters := o.waiters - 1;
      if o.waiters != 0 { return; }
      if key in operations && operations[key] == o { operations := operations - {key}; }
      if !o.settled { o.aborted := true; }
    }

    /** An operation without waiters has left already, so settling removes nothing. */
    method Settled(key: string, o: SharedOperation)
      modifies this, o
      ensures o.settled && o.waiters == old(o.waiters) && o.aborted == old(o.aborted)
      ensures old(Valid()) ==> Valid() && operations == old(operations)
      ensures operations ==
        if o.waiters == 0 && key in old(operations) && old(operations)[key] == o then old(operations) - {key}
        else old(operations)
    {
      o.settled := true;
      if o.waiters == 0 && key in operations && operations[key] == o { operations := operations - {key}; }
    }
  }
}
