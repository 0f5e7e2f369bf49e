/** Ownership of the one physical Worker. */
module Host {
  // The host holds it, a retirement keeps it until its exit is confirmed, and no other
  // Worker is started before that.

  import opened Options

  /** A Worker being stopped. `exited`: its exit is confirmed. `failed`: a stop was rejected. */
  datatype Retirement = Retirement(worker: nat, exited: bool, stopping: bool, failed: bool)

  /** `running` is the set of Worker threads that have not ended: the world, not the host.
      `created` counts the Workers ever started; each has its number. */
  datatype State = State(worker: Option<nat>, retirement: Option<Retirement>, disposed: bool, nextEpoch: nat,
                         roots: map<string, nat>, created: nat, running: set<nat>)

  const Start := State(None, None, false, 1, map[], 0, {})

  // ----- Steps of the host -----

  datatype Ensured = Refused | Owned(worker: nat)

  /** A retirement in the way is an error; otherwise the Worker at hand or a new one. */
  function EnsureWorker(s: State): State {
    if s.retirement.Some? || s.worker.Some? then s
    else s.(worker := Some(s.created), created := s.created + 1, running := s.running + {s.created})
  }

  function EnsureResult(s: State): Ensured {
    if s.retirement.Some? then Refused else if s.worker.Some? then Owned(s.worker.value) else Owned(s.created)
  }

  /** The supervisor of a root: its epoch, registered with the Worker at hand. */
  function Supervise(s: State, root: string): State {
    if root in s.roots || s.disposed || EnsureResult(s).Refused? then s
    else
      var e := EnsureWorker(s);
      e.(roots := e.roots[root := e.nextEpoch], nextEpoch := e.nextEpoch + 1)
  }

  function StopAsked(r: Retirement, retry: bool): Retirement {
    if r.stopping || (r.failed && !r.exited && !retry) then r else r.(stopping := true)
  }

  /** Starts or joins the retirement of the current Worker. */
  function ReplaceWorker(s: State, retry: bool): State {
    if s.retirement.Some? then s.(retirement := Some(StopAsked(s.retirement.value, retry)))
    else if s.worker.None? then s
    else
      var w := s.worker.value;
      s.(worker := None, retirement := Some(StopAsked(Retirement(w, w !in s.running, false, false), retry)))
  }

  /** The drain of the old supervisors is over. */
  function Drained(s: State): State { s.(roots := map[]) }

  /** The stop settled: resolved only after the exit, or rejected at any time. A rejected
      stop is no proof of exit and keeps the retirement. */
  function StopSettled(s: State, ok: bool): State {
    if s.retirement.None? || !s.retirement.value.stopping || (ok && !s.retirement.value.exited) then s
    else if s.retirement.value.exited then s.(retirement := None)
    else s.(retirement := Some(s.retirement.value.(stopping := false, failed := true)))
  }

  // ----- Steps of the world -----

  /** A thread ends: by itself, or because it was stopped. */
  function ThreadEnds(s: State, w: nat): State { s.(running := s.running - {w}) }

  /** The exit event of an ended thread reaches the parent. */
  function ExitReported(s: State, w: nat): State {
    if w !in s.running && s.retirement.Some? && s.retirement.value.worker == w
    then s.(retirement := Some(s.retirement.value.(exited := true))) else s
  }

  datatype Event =
    | Supervising(root: string)
    | Replacing(retry: bool)
    | Draining
    | Settling(ok: bool)
    | Ending(worker: nat)
    | Reporting(worker: nat)
    | Disposing

  function Handle(s: State, e: Event): State {
    match e
    case Supervising(root) => Supervise(s, root)
    case Replacing(retry) => ReplaceWorker(s, retry)
    case Draining => Drained(s)
    case Settling(ok) => StopSettled(s, ok)
    case Ending(w) => ThreadEnds(s, w)
    case Reporting(w) => ExitReported(s, w)
    case Disposing => ReplaceWorker(s.(disposed := true), true)
  }

  function Play(events: seq<Event>, n: nat): State
    requires n <= |events|
  {
    if n == 0 then Start else Handle(Play(events, n - 1), events[n - 1])
  }

  // ----- Every run -----

  /** Every running thread is the Worker at hand or the one in retirement, never both. */
  predicate Inv(s: State) {
    && (s.worker.Some? ==> s.retirement.None? && s.worker.value < s.created)
    && (s.retirement.Some? ==> s.retirement.value.worker < s.created)
    && (s.retirement.Some? && s.retirement.value.exited ==> s.retirement.value.worker !in s.running)
    && (forall w :: w in s.running ==>
          s.worker == Some(w) || (s.retirement.Some? && s.retirement.value.worker == w))
    && (forall root :: root in s.roots ==> s.roots[root] < s.nextEpoch)
    && (forall a, b :: a in s.roots && b in s.roots && s.roots[a] == s.roots[b] ==> a == b)
  }

  lemma HandleKeepsInv(s: State, e: Event)
    requires Inv(s)
    ensures Inv(Handle(s, e))
  {
  }

  lemma {:induction false} InvInEveryRun(events: seq<Event>, n: nat)
    requires n <= |events|
    ensures Inv(Play(events, n))
  {
    if n > 0 {
      InvInEveryRun(events, n - 1);
      HandleKeepsInv(Play(events, n - 1), events[n - 1]);
    }
  }

  lemma OneAtMost(s: State)
    requires Inv(s)
    ensures |s.running| <= 1
  {
    if s.running != {} {
      var w :| w in s.running;
      assert s.running == {w};
    }
  }

  /** In every run at most one Worker thread is running, and when a Worker is started no
      earlier one is. */
  lemma AtMostOneWorkerInEveryRun(events: seq<Event>, n: nat)
    requires n < |events|
    ensures |Play(events, n).running| <= 1
    ensures var s, t := Play(events, n), Play(events, n + 1);
      t.created > s.created ==> s.running == {} && t.running == {s.created} && t.worker == Some(s.created)
  {
    InvInEveryRun(events, n);
    OneAtMost(Play(events, n));
  }

  /** A Worker in retirement is given up exactly when a stop that was asked for settles
      after its exit; until then it stays the one in retirement. */
  lemma RetirementEndsWithExit(events: seq<Event>, n: nat)
    requires n < |events|
    ensures var s, t := Play(events, n), Play(events, n + 1);
      s.retirement.Some? ==>
        var r := s.retirement.value;
        && (t.retirement.None? <==> events[n].Settling? && r.stopping && r.exited)
        && (t.retirement.None? ==> r.worker !in s.running)
        && (t.retirement.Some? ==> t.retirement.value.worker == r.worker)
  {
    InvInEveryRun(events, n);
  }

  /** The Worker at hand stays at hand until it is replaced or the host is disposed, and is
      then the one in retirement, with its stop asked for. */
  lemma WorkerIsHandedOver(events: seq<Event>, n: nat, w: nat)
    requires n < |events| && Play(events, n).worker == Some(w)
    ensures var t := Play(events, n + 1);
      if events[n].Replacing? || events[n].Disposing? then
        t.worker.None? && t.retirement.Some? && t.retirement.value.worker == w && t.retirement.value.stopping
      else t.worker == Some(w) && t.retirement.None?
  {
    InvInEveryRun(events, n);
  }

  /** A stop that was rejected before the exit is asked for again only by a retry or a
      disposal. */
  lemma StopIsAskedExactly(events: seq<Event>, n: nat)
    requires n < |events| && Play(events, n).retirement.Some? && (events[n].Replacing? || events[n].Disposing?)
    ensures var r, t := Play(events, n).retirement.value, Play(events, n + 1);
      && t.retirement.Some?
      && (t.retirement.value.stopping <==>
            r.stopping || !r.failed || r.exited || events[n].Disposing? || events[n].retry)
  {
  }

  /** A root is registered exactly when it is already, or the host is not disposed and no
      Worker is in retirement; then a Worker is at hand. */
  lemma RootIsRegisteredExactly(events: seq<Event>, n: nat, root: string)
    requires n < |events| && events[n] == Supervising(root)
    ensures var s, t := Play(events, n), Play(events, n + 1);
      && (root in t.roots <==> root in s.roots || (!s.disposed && s.retirement.None?))
      && (root !in s.roots && root in t.roots ==> t.worker.Some? && (s.worker.Some? ==> t.worker == s.worker))
  {
  }

  /** From every state of every run of a host that is not disposed, a retirement that is
      retried after the thread ended gives way to a new Worker. */
  lemma RetirementGivesWay(events: seq<Event>, n: nat, root: string)
    requires n <= |events| && Play(events, n).retirement.Some? && !Play(events, n).disposed
    requires var w := Play(events, n).retirement.value.worker;
      events[n..] == [Ending(w), Reporting(w), Replacing(true), Settling(true), Draining, Supervising(root)]
    ensures var t := Play(events, n + 6); t.retirement.None? && t.worker.Some? && root in t.roots
  {
    var s := Play(events, n);
    var w := s.retirement.value.worker;
    assert forall i :: 0 <= i < 6 ==> events[n + i] == events[n..][i];
    var after := Play(events, n + 2);
    assert Play(events, n + 1) == ThreadEnds(s, w);
    assert after == ExitReported(Play(events, n + 1), w);
    assert after.retirement.Some? && after.retirement.value.exited;
    assert Play(events, n + 3) == ReplaceWorker(after, true);
    assert Play(events, n + 4) == StopSettled(Play(events, n + 3), true);
    assert Play(events, n + 5) == Drained(Play(events, n + 4));
    assert Play(events, n + 6) == Supervise(Play(events, n + 5), root);
  }

  lemma {:induction false} NumbersGrow(events: seq<Event>, m: nat, n: nat)
    requires m <= n <= |events|
    ensures Play(events, m).nextEpoch <= Play(events, n).nextEpoch && Play(events, m).created <= Play(events, n).created
  {
    if m < n { NumbersGrow(events, m, n - 1); }
  }

  lemma NewRoot(s: State, e: Event, root: string)
    requires root !in s.roots && root in Handle(s, e).roots
    ensures Handle(s, e).roots[root] == s.nextEpoch
  {
  }

  /** An epoch given to a root is larger than every epoch any root held before in the run:
      a message of an old epoch reaches no new supervisor. */
  lemma EpochsAreNeverReused(events: seq<Event>, m: nat, n: nat, former: string, root: string)
    requires m <= n < |events| && former in Play(events, m).roots
    requires root !in Play(events, n).roots && root in Play(events, n + 1).roots
    ensures Play(events, m).roots[former] < Play(events, n + 1).roots[root]
  {
    InvInEveryRun(events, m);
    NumbersGrow(events, m, n);
    NewRoot(Play(events, n), events[n], root);
  }

  // ----- The object -----

  class SemanticWorkerHost {
    var worker: Option<nat>
    var retirement: Option<Retirement>
    var disposed: bool
    var nextEpoch: nat
    var roots: map<string, nat>
    var created: nat
    ghost var running: set<nat>

    ghost function View(): State
      reads this
    {
      State(worker, retirement, disposed, nextEpoch, roots, created, running)
    }

    constructor ()
      ensures View() == Start
    {
      worker, retirement, disposed, nextEpoch, roots, created := None, None, false, 1, map[], 0;
      running := {};
    }

    method Ensure() returns (r: Ensured)
      modifies this
      ensures View() == EnsureWorker(old(View())) && r == EnsureResult(old(View()))
      ensures r.Owned? ==> worker == Some(r.worker)
    {
      if retirement.Some? { return Refused; }
      if worker.Some? { return Owned(worker.value); }
      worker := Some(created);
      running := running + {created};
      r := Owned(created);
      created := created + 1;
    }

    /** Nothing when the host is disposed or an old Worker has not exited. */
    method Supervisor(root: string) returns (epoch: Option<nat>)
      modifies this
      ensures View() == Supervise(old(View()), root)
      ensures epoch == if root in roots then Some(roots[root]) else None
    {
      if root in roots { return Some(roots[root]); }
      if disposed { return None; }
      var e := Ensure();
      if e.Refused? { return None; }
      epoch := Some(nextEpoch);
      roots := roots[root := nextEpoch];
      nextEpoch := nextEpoch + 1;
    }

    /** `alive` is what the thread's own handle says. */
    method Replace(retry: bool, alive: bool)
      requires worker.Some? ==> alive == (worker.value in running)
      modifies this
      ensures View() == ReplaceWorker(old(View()), retry)
    {
      if retirement.None? {
        if worker.None? { return; }
        retirement := Some(Retirement(worker.value, !alive, false, false));
        worker := None;
      }
      retirement := Some(StopAsked(retirement.value, retry));
    }

    method StopEnded(ok: bool)
      modifies this
      ensures View() == StopSettled(old(View()), ok)
    {
      if retirement.None? || !retirement.value.stopping || (ok && !retirement.value.exited) { return; }
      if retirement.value.exited {
        retirement := None;
      } else {
        retirement := Some(retirement.value.(stopping := false, failed := true));
      }
    }
  }
}
