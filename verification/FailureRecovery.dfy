/** Restart policy of the parent. */
module FailureRecovery {
  // A sliding-window circuit breaker with half-open probes.
  //
  // The handlers are functions on `Circuit`; the class at the end is proved against them
  // and `Play` runs them in any order under a clock that never goes back.

  import opened Options

  const WINDOW_MS: int := 180_000
  const MAX_RESTARTS: nat := 3

  datatype Circuit = Circuit(restarts: seq<int>, pending: bool, failed: bool, automatic: nat, failedInput: nat,
                             input: nat, blocked: nat, configurations: map<string, string>, probing: bool,
                             stopping: bool)

  const Closed := Circuit([], false, false, 0, 0, 0, 0, map[], false, false)

  // ----- Handlers -----

  function Fail(c: Circuit): Circuit {
    c.(blocked := if c.failed then c.blocked else c.input, failed := true)
  }

  function InputChanged(c: Circuit, configuration: Option<(string, string)>): Circuit {
    if configuration.None? then c.(input := c.input + 1)
    else
      var (key, value) := configuration.value;
      if key in c.configurations && c.configurations[key] == value then c
      else c.(configurations := c.configurations[key := value], input := c.input + 1)
  }

  function Healthy(c: Circuit): Circuit {
    if c.failed then c
    else c.(automatic := if c.input > c.failedInput then 0 else c.automatic, probing := false)
  }

  /** Restarts more than a window ago no longer count. */
  function Expired(restarts: seq<int>, now: int): (r: seq<int>)
    ensures |r| <= |restarts|
  {
    if restarts != [] && now - restarts[0] > WINDOW_MS then Expired(restarts[1..], now) else restarts
  }

  function Expire(c: Circuit, now: int): Circuit { c.(restarts := Expired(c.restarts, now)) }

  /** Explicit work on changed input may close the circuit for one probe. */
  predicate Probes(c: Circuit, now: int, disposed: bool) {
    c.failed && !c.stopping && !disposed && c.input > c.blocked && |Expired(c.restarts, now)| < MAX_RESTARTS
  }

  function Probe(c: Circuit, now: int, disposed: bool): Circuit {
    if !c.failed || c.stopping || disposed then c
    else if !Probes(c, now, disposed) then Expire(c, now)
    else
      c.(restarts := Expired(c.restarts, now) + [now], probing := true, blocked := c.input, failed := false,
         pending := true)
  }

  /** The part of an admission up to its first wait. */
  function Admit(c: Circuit, explicit: bool, now: int, disposed: bool): Circuit {
    if !explicit || !c.failed || c.pending then c else Probe(c, now, disposed)
  }

  predicate Restarts(c: Circuit, now: int, busy: bool) {
    !c.pending && !busy && !c.probing && |Expired(c.restarts, now)| < MAX_RESTARTS && c.automatic < 3
  }

  /** `busy`: a recycle is under way. */
  function WorkerFailed(c: Circuit, now: int, busy: bool, disposed: bool): Circuit {
    if disposed || c.stopping then c
    else
      var e := Expire(c.(failedInput := c.input), now);
      if c.pending || busy then Fail(e)
      else if Restarts(c, now, busy) then
        e.(restarts := e.restarts + [now], automatic := c.automatic + 1, pending := true)
      else Fail(e).(pending := true)
  }

  function MutationFailed(c: Circuit, restartRequired: bool, now: int, busy: bool, disposed: bool): Circuit {
    if disposed then c else if restartRequired then WorkerFailed(c, now, busy, disposed) else Fail(c)
  }

  /** The recovery task ended, perhaps with an error. */
  function Recovered(c: Circuit, ok: bool): Circuit {
    (if ok then c else Fail(c)).(pending := false)
  }

  // ----- Runs -----

  datatype Event =
    | Failing
    | Changing(configuration: Option<(string, string)>)
    | BecomingHealthy
    | Admitting(explicit: bool, now: int, disposed: bool)
    | Resuming(now: int, disposed: bool)
    | WorkerFailing(now: int, busy: bool, disposed: bool)
    | MutationFailing(restartRequired: bool, now: int, busy: bool, disposed: bool)
    | Recovering(ok: bool)
    | Settling

  function Handle(c: Circuit, e: Event): Circuit {
    match e
    case Failing => Fail(c)
    case Changing(configuration) => InputChanged(c, configuration)
    case BecomingHealthy => Healthy(c)
    case Admitting(explicit, now, disposed) => Admit(c, explicit, now, disposed)
    case Resuming(now, disposed) => Probe(c, now, disposed)
    case WorkerFailing(now, busy, disposed) => WorkerFailed(c, now, busy, disposed)
    case MutationFailing(restartRequired, now, busy, disposed) =>
      MutationFailed(c, restartRequired, now, busy, disposed)
    case Recovering(ok) => Recovered(c, ok)
    case Settling => c.(stopping := true)
  }

  predicate Timed(e: Event) { e.Admitting? || e.Resuming? || e.WorkerFailing? || e.MutationFailing? }

  function Clock(e: Event, before: int): int { if Timed(e) then e.now else before }

  /** A restart: when, whether as a probe, and on which input. */
  datatype Restart = Restart(at: int, probe: bool, input: nat)

  function Started(c: Circuit, e: Event): Option<Restart> {
    match e
    case Admitting(explicit, now, disposed) =>
      if explicit && !c.pending && Probes(c, now, disposed) then Some(Restart(now, true, c.input)) else None
    case Resuming(now, disposed) => if Probes(c, now, disposed) then Some(Restart(now, true, c.input)) else None
    case WorkerFailing(now, busy, disposed) =>
      if !disposed && !c.stopping && Restarts(c, now, busy) then Some(Restart(now, false, c.input)) else None
    case MutationFailing(restartRequired, now, busy, disposed) =>
      if restartRequired && !disposed && !c.stopping && Restarts(c, now, busy)
        then Some(Restart(now, false, c.input)) else None
    case _ => None
  }

  /** The circuit after `n` events, every restart so far, and the clock. */
  datatype History = History(circuit: Circuit, log: seq<Restart>, clock: int)

  function Next(h: History, e: Event): History {
    History(Handle(h.circuit, e),
            h.log + (var r := Started(h.circuit, e); if r.Some? then [r.value] else []),
            Clock(e, h.clock))
  }

  function Play(events: seq<Event>, n: nat, start: int): History
    requires n <= |events|
  {
    if n == 0 then History(Closed, [], start) else Next(Play(events, n - 1, start), events[n - 1])
  }

  /** The clock never goes back during the first `n` events. */
  predicate Monotone(events: seq<Event>, n: nat, start: int)
    requires n <= |events|
  {
    n == 0 || (Monotone(events, n - 1, start)
               && Clock(events[n - 1], Play(events, n - 1, start).clock) >= Play(events, n - 1, start).clock)
  }

  // ----- At most three restarts in any window -----

  function Times(log: seq<Restart>, from: nat): (r: seq<int>)
    requires from <= |log|
    ensures |r| == |log| - from
  {
    seq(|log| - from, i requires 0 <= i < |log| - from => log[from + i].at)
  }

  /** The list holds the times of the last restarts; older ones left their window. */
  ghost predicate Kept(h: History, from: nat) {
    && from <= |h.log| && h.circuit.restarts == Times(h.log, from)
    && (forall i :: 0 <= i < |h.log| ==> h.log[i].at <= h.clock)
    && (forall i :: 0 <= i < from ==> h.clock - h.log[i].at > WINDOW_MS)
    && (forall i :: 0 <= i < |h.log| - 3 ==> h.log[i + 3].at - h.log[i].at > WINDOW_MS)
    && |h.log| - from <= 3
  }

  lemma {:induction false} ExpiredIsSuffix(log: seq<Restart>, from: nat, now: int) returns (next: nat)
    requires from <= |log|
    ensures from <= next <= |log| && Expired(Times(log, from), now) == Times(log, next)
    ensures forall i :: from <= i < next ==> now - log[i].at > WINDOW_MS
    ensures next == |log| || now - log[next].at <= WINDOW_MS
    decreases |log| - from
  {
    var times := Times(log, from);
    if times != [] && now - times[0] > WINDOW_MS {
      assert times[1..] == Times(log, from + 1);
      next := ExpiredIsSuffix(log, from + 1, now);
    } else {
      next := from;
    }
  }

  lemma TimesGrow(log: seq<Restart>, from: nat, r: Restart)
    requires from <= |log|
    ensures Times(log + [r], from) == Times(log, from) + [r.at]
  {
  }

  /** The list after an event is the old one, or what is left of it, or that and now. */
  lemma RestartsAfter(c: Circuit, e: Event)
    ensures var after := Handle(c, e).restarts;
      if Started(c, e).Some? then
        && after == Expired(c.restarts, e.now) + [e.now] && |Expired(c.restarts, e.now)| < 3
        && Timed(e) && Started(c, e).value.at == e.now
      else after == c.restarts || (Timed(e) && after == Expired(c.restarts, e.now))
  {
  }

  lemma StartKeeps(h: History, from: nat, r: Restart, next: History) returns (first: nat)
    requires Kept(h, from) && r.at >= h.clock && next.clock == r.at && next.log == h.log + [r]
    requires next.circuit.restarts == Expired(h.circuit.restarts, r.at) + [r.at]
    requires |Expired(h.circuit.restarts, r.at)| < 3
    ensures Kept(next, first)
  {
    first := ExpiredIsSuffix(h.log, from, r.at);
    TimesGrow(h.log, first, r);
  }

  lemma ExpiryKeeps(h: History, from: nat, next: History) returns (first: nat)
    requires Kept(h, from) && next.clock >= h.clock && next.log == h.log
    requires next.circuit.restarts == h.circuit.restarts
      || next.circuit.restarts == Expired(h.circuit.restarts, next.clock)
    ensures Kept(next, first)
  {
    if next.circuit.restarts == h.circuit.restarts {
      first := from;
    } else {
      first := ExpiredIsSuffix(h.log, from, next.clock);
    }
  }

  lemma NextKeeps(h: History, e: Event, from: nat, next: History) returns (first: nat)
    requires Kept(h, from) && Clock(e, h.clock) >= h.clock && next == Next(h, e)
    ensures Kept(next, first)
  {
    RestartsAfter(h.circuit, e);
    if Started(h.circuit, e).Some? {
      first := StartKeeps(h, from, Started(h.circuit, e).value, next);
    } else {
      first := ExpiryKeeps(h, from, next);
    }
  }

  lemma {:induction false} RunKeeps(events: seq<Event>, n: nat, start: int) returns (from: nat)
    requires n <= |events| && Monotone(events, n, start)
    ensures Kept(Play(events, n, start), from)
  {
    if n == 0 {
      from := 0;
    } else {
      from := RunKeeps(events, n - 1, start);
      from := NextKeeps(Play(events, n - 1, start), events[n - 1], from, Play(events, n, start));
    }
  }

  /** In any run any four successive restarts take more than 180 seconds: no closed
      window of that length holds more than three. */
  lemma AtMostThreeRestartsInAnyWindow(events: seq<Event>, start: int, i: nat)
    requires Monotone(events, |events|, start) && i + 3 < |Play(events, |events|, start).log|
    ensures var log := Play(events, |events|, start).log; log[i + 3].at - log[i].at > WINDOW_MS
  {
    var from := RunKeeps(events, |events|, start);
  }

  // ----- Automatic restarts -----

  /** A healthy result on an input newer than the last failed one. */
  predicate Resets(c: Circuit, e: Event) {
    e.BecomingHealthy? && !c.failed && c.input > c.failedInput
  }

  /** No event from `m` to `n` resets the count. */
  predicate Unreset(events: seq<Event>, start: int, m: nat, n: nat)
    requires m <= n <= |events|
  {
    m == n || (Unreset(events, start, m, n - 1) && !Resets(Play(events, n - 1, start).circuit, events[n - 1]))
  }

  function Automatic(c: Circuit, e: Event): nat {
    var r := Started(c, e);
    if r.Some? && !r.value.probe then 1 else 0
  }

  function AutomaticIn(events: seq<Event>, start: int, m: nat, n: nat): nat
    requires m <= n <= |events|
  {
    if m == n then 0
    else AutomaticIn(events, start, m, n - 1) + Automatic(Play(events, n - 1, start).circuit, events[n - 1])
  }

  lemma AutomaticAfter(h: History, e: Event, next: History)
    requires h.circuit.automatic <= 3 && next == Next(h, e)
    ensures next.circuit.automatic <= 3
    ensures !Resets(h.circuit, e) ==> next.circuit.automatic == h.circuit.automatic + Automatic(h.circuit, e)
  {
  }

  lemma {:induction false} AutomaticIsBounded(events: seq<Event>, start: int, n: nat)
    requires n <= |events|
    ensures Play(events, n, start).circuit.automatic <= 3
  {
    if n > 0 {
      AutomaticIsBounded(events, start, n - 1);
      AutomaticAfter(Play(events, n - 1, start), events[n - 1], Play(events, n, start));
    }
  }

  lemma {:induction false} AutomaticCounts(events: seq<Event>, start: int, m: nat, n: nat)
    requires m <= n <= |events| && Unreset(events, start, m, n)
    ensures Play(events, n, start).circuit.automatic
      == Play(events, m, start).circuit.automatic + AutomaticIn(events, start, m, n)
  {
    if m < n {
      AutomaticCounts(events, start, m, n - 1);
      AutomaticIsBounded(events, start, n - 1);
      AutomaticAfter(Play(events, n - 1, start), events[n - 1], Play(events, n, start));
    }
  }

  /** Between two points of a run with no healthy result on newer input there are at most
      three automatic restarts, whatever the clock does. */
  lemma AtMostThreeAutomaticRestarts(events: seq<Event>, start: int, m: nat, n: nat)
    requires m <= n <= |events| && Unreset(events, start, m, n)
    ensures AutomaticIn(events, start, m, n) <= 3
  {
    AutomaticCounts(events, start, m, n);
    AutomaticIsBounded(events, start, n);
  }

  // ----- Probes -----

  /** Probes so far were on increasing input, none above what is blocked. */
  ghost predicate Climbing(h: History) {
    && h.circuit.blocked <= h.circuit.input
    && (forall i :: 0 <= i < |h.log| && h.log[i].probe ==> h.log[i].input <= h.circuit.blocked)
    && forall i, j :: 0 <= i < j < |h.log| && h.log[i].probe && h.log[j].probe ==> h.log[i].input < h.log[j].input
  }

  lemma BlockedClimbs(c: Circuit, e: Event)
    requires c.blocked <= c.input
    ensures c.blocked <= Handle(c, e).blocked <= Handle(c, e).input && c.input <= Handle(c, e).input
    ensures Started(c, e).Some? && Started(c, e).value.probe ==>
      c.blocked < Started(c, e).value.input == Handle(c, e).blocked
  {
    match e
    case MutationFailing(_, _, _, _) => {}
    case WorkerFailing(_, _, _) => {}
    case _ => {}
  }

  lemma NextClimbs(h: History, e: Event)
    requires Climbing(h)
    ensures Climbing(Next(h, e))
  {
    BlockedClimbs(h.circuit, e);
  }

  /** Each half-open probe runs on a strictly larger input revision than every earlier one. */
  lemma {:induction false} ProbesClimb(events: seq<Event>, start: int, n: nat)
    requires n <= |events|
    ensures Climbing(Play(events, n, start))
  {
    if n > 0 {
      ProbesClimb(events, start, n - 1);
      NextClimbs(Play(events, n - 1, start), events[n - 1]);
    }
  }

  // ----- Stopping -----

  /** Once settling, nothing restarts the Worker. */
  lemma {:induction false} SettlingIsFinal(events: seq<Event>, start: int, m: nat, n: nat)
    requires m <= n <= |events| && Play(events, m, start).circuit.stopping
    ensures Play(events, n, start).circuit.stopping && Play(events, n, start).log == Play(events, m, start).log
  {
    if m < n {
      SettlingIsFinal(events, start, m, n - 1);
      var c := Play(events, n - 1, start).circuit;
      assert Started(c, events[n - 1]).None?;
    }
  }

  // ----- The open circuit -----

  /** The third restart from the end, if there is one, left the window. */
  predicate Room(log: seq<Restart>, now: int) {
    |log| < MAX_RESTARTS || now - log[|log| - MAX_RESTARTS].at > WINDOW_MS
  }

  lemma RoomIsCounted(h: History, from: nat, now: int)
    requires Kept(h, from) && now >= h.clock
    ensures |Expired(h.circuit.restarts, now)| < MAX_RESTARTS <==> Room(h.log, now)
  {
    var next := ExpiredIsSuffix(h.log, from, now);
  }

  /** The automatic restarts since the last healthy result on an input newer than the
      failed one. */
  function Spent(events: seq<Event>, start: int, n: nat): nat
    requires n <= |events|
  {
    if n == 0 || Resets(Play(events, n - 1, start).circuit, events[n - 1]) then 0
    else Spent(events, start, n - 1) + Automatic(Play(events, n - 1, start).circuit, events[n - 1])
  }

  lemma ResetClears(c: Circuit, e: Event)
    requires Resets(c, e)
    ensures Handle(c, e).automatic == 0
  {
  }

  lemma {:induction false} AutomaticIsSpent(events: seq<Event>, start: int, n: nat)
    requires n <= |events|
    ensures Play(events, n, start).circuit.automatic == Spent(events, start, n)
  {
    if n > 0 {
      AutomaticIsSpent(events, start, n - 1);
      AutomaticIsBounded(events, start, n - 1);
      var h := Play(events, n - 1, start);
      if Resets(h.circuit, events[n - 1]) {
        ResetClears(h.circuit, events[n - 1]);
      } else {
        AutomaticAfter(h, events[n - 1], Play(events, n, start));
      }
    }
  }

  /** A Worker failure is reported while nothing is pending and no probe runs. */
  predicate Reports(c: Circuit, e: Event) {
    && (e.WorkerFailing? || (e.MutationFailing? && e.restartRequired))
    && !e.disposed && !e.busy && !c.stopping && !c.pending && !c.probing
  }

  /** Explicit work is admitted, or resumes after its wait, on an input newer than the
      blocked one. */
  predicate Retries(c: Circuit, e: Event) {
    && (e.Resuming? || (e.Admitting? && e.explicit && !c.pending))
    && !e.disposed && !c.stopping && c.input > c.blocked
  }

  lemma StartedExactly(c: Circuit, e: Event)
    ensures (Started(c, e).Some? && !Started(c, e).value.probe) <==>
      Reports(c, e) && |Expired(c.restarts, e.now)| < MAX_RESTARTS && c.automatic < 3
    ensures (c.failed && !Handle(c, e).failed) <==>
      c.failed && Retries(c, e) && |Expired(c.restarts, e.now)| < MAX_RESTARTS
    ensures (Started(c, e).Some? && Started(c, e).value.probe) <==> c.failed && !Handle(c, e).failed
    ensures Started(c, e).Some? && !Started(c, e).value.probe ==> Handle(c, e).failed == c.failed
  {
  }

  /** After any events, a reported failure restarts the Worker exactly when fewer than three
      restarts lie in the window and fewer than three automatic ones were spent. Whether the
      circuit is open plays no part, and the restart leaves it open. Only a probe closes it, and does:
      exactly when explicit work comes on newer input and the window has room. */
  lemma OpenCircuitRestarts(events: seq<Event>, start: int, n: nat, e: Event)
    requires n <= |events| && Monotone(events, n, start)
    requires Clock(e, Play(events, n, start).clock) >= Play(events, n, start).clock
    ensures var h := Play(events, n, start);
      && ((Started(h.circuit, e).Some? && !Started(h.circuit, e).value.probe) <==>
           Reports(h.circuit, e) && Room(h.log, Clock(e, h.clock)) && Spent(events, start, n) < 3)
      && ((h.circuit.failed && !Handle(h.circuit, e).failed) <==>
           h.circuit.failed && Retries(h.circuit, e) && Room(h.log, Clock(e, h.clock)))
      && ((Started(h.circuit, e).Some? && Started(h.circuit, e).value.probe) <==>
           h.circuit.failed && !Handle(h.circuit, e).failed)
      && (Started(h.circuit, e).Some? && !Started(h.circuit, e).value.probe ==>
           Handle(h.circuit, e).failed == h.circuit.failed)
  {
    var h := Play(events, n, start);
    var from := RunKeeps(events, n, start);
    RoomIsCounted(h, from, Clock(e, h.clock));
    AutomaticIsSpent(events, start, n);
    StartedExactly(h.circuit, e);
  }

  /** The circuit is open, a Worker failure comes, and the Worker is restarted. */
  lemma OpenCircuitCanRestart(events: seq<Event>)
    requires events == [Failing, WorkerFailing(0, false, false)]
    ensures Monotone(events, 2, 0) && Play(events, 1, 0).circuit.failed
    ensures Play(events, 2, 0).circuit.failed && Play(events, 2, 0).log == [Restart(0, false, 0)]
  {
    assert Play(events, 0, 0) == History(Closed, [], 0);
    assert Play(events, 1, 0) == Next(Play(events, 0, 0), Failing);
    assert Play(events, 2, 0) == Next(Play(events, 1, 0), events[1]);
    assert Monotone(events, 1, 0);
  }

  // ----- The object -----

  class SemanticWorkerFailureRecovery {
    var restarts: seq<int>
    var pending: bool
    var failed: bool
    var automatic: nat
    var failedInput: nat
    var input: nat
    var blocked: nat
    var configurations: map<string, string>
    var probing: bool
    var stopping: bool

    function View(): Circuit
      reads this
    {
      Circuit(restarts, pending, failed, automatic, failedInput, input, blocked, configurations, probing, stopping)
    }

    constructor ()
      ensures View() == Closed
    {
      restarts, pending, failed, automatic, failedInput := [], false, false, 0, 0;
      input, blocked, configurations, probing, stopping := 0, 0, map[], false, false;
    }

    method DoFail()
      modifies this
      ensures View() == Fail(old(View()))
    {
      if !failed { blocked := input; }
      failed := true;
    }

    method DoInputChanged(configuration: Option<(string, string)>)
      modifies this
      ensures View() == InputChanged(old(View()), configuration)
    {
      if configuration.Some? {
        var (key, value) := configuration.value;
        if key in configurations && configurations[key] == value { return; }
        configurations := configurations[key := value];
      }
      input := input + 1;
    }

    method DoHealthy()
      modifies this
      ensures View() == Healthy(old(View()))
    {
      if failed { return; }
      if input > failedInput { automatic := 0; }
      probing := false;
    }

    method ExpireRateWindow(now: int)
      modifies this`restarts
      ensures View() == Expire(old(View()), now)
    {
      while restarts != [] && now - restarts[0] > WINDOW_MS
        invariant Expired(restarts, now) == Expired(old(restarts), now)
        decreases |restarts|
      {
        restarts := restarts[1..];
      }
    }

    /** What follows an admission's wait. */
    method DoProbe(now: int, disposed: bool)
      modifies this
      ensures View() == Probe(old(View()), now, disposed)
    {
      if !failed || stopping || disposed { return; }
      ExpireRateWindow(now);
      if input <= blocked || |restarts| >= MAX_RESTARTS { return; }
      probing := true;
      blocked := input;
      failed := false;
      restarts := restarts + [now];
      pending := true;
    }

    method DoAdmit(explicit: bool, now: int, disposed: bool) returns (refused: bool)
      modifies this
      ensures refused == (old(probing) && !explicit)
      ensures View() == Admit(old(View()), explicit, now, disposed)
    {
      refused := probing && !explicit;
      if refused || !failed || !explicit || pending { return; }
      DoProbe(now, disposed);
    }

    method DoWorkerFailed(now: int, busy: bool, disposed: bool)
      modifies this
      ensures View() == WorkerFailed(old(View()), now, busy, disposed)
    {
      if disposed || stopping { return; }
      failedInput := input;
      ExpireRateWindow(now);
      if pending || busy {
        DoFail();
        return;
      }
      if !probing && |restarts| < MAX_RESTARTS && automatic < 3 {
        restarts := restarts + [now];
        automatic := automatic + 1;
      } else {
        DoFail();
      }
      pending := true;
    }
  }
}
