/** What the restart policy remembers of a run. */
module CircuitMemory {
  // Each field of the circuit is read off the events alone: which of them came last, and on
  // which input.

  import opened FailureRecovery

  // ----- Flags -----

  /** What lasts from one event to another. */
  datatype Flag = Open | Probing | Pending | Stopping

  predicate Holds(f: Flag, c: Circuit) {
    match f
    case Open => c.failed
    case Probing => c.probing
    case Pending => c.pending
    case Stopping => c.stopping
  }

  predicate ProbeStarts(c: Circuit, e: Event) { Started(c, e).Some? && Started(c, e).value.probe }

  /** A failure of the Worker that counts: by itself or through an edit. */
  predicate WorkerLost(c: Circuit, e: Event) {
    (e.WorkerFailing? || (e.MutationFailing? && e.restartRequired)) && !e.disposed && !c.stopping
  }

  /** Any failure opens the circuit but one that is answered by an automatic restart. */
  predicate Opens(c: Circuit, e: Event) {
    || e.Failing? || (e.Recovering? && !e.ok) || (e.MutationFailing? && !e.restartRequired && !e.disposed)
    || (WorkerLost(c, e) && Started(c, e).None?)
  }

  predicate Begins(f: Flag, c: Circuit, e: Event) {
    match f
    case Open => Opens(c, e)
    case Probing => ProbeStarts(c, e)
    case Pending => ProbeStarts(c, e) || (WorkerLost(c, e) && !e.busy)
    case Stopping => e.Settling?
  }

  predicate Ends(f: Flag, c: Circuit, e: Event) {
    match f
    case Open => ProbeStarts(c, e)
    case Probing => e.BecomingHealthy? && !c.failed
    case Pending => e.Recovering?
    case Stopping => false
  }

  lemma FlagStep(f: Flag, c: Circuit, e: Event)
    ensures Holds(f, Handle(c, e)) <==> Begins(f, c, e) || (Holds(f, c) && !Ends(f, c, e))
  {
  }

  function Before(events: seq<Event>, start: int, k: nat): Circuit
    requires k <= |events|
  {
    Play(events, k, start).circuit
  }

  predicate EndsAt(f: Flag, events: seq<Event>, start: int, k: nat)
    requires k < |events|
  {
    Ends(f, Before(events, start, k), events[k])
  }

  /** It began with event `k` and nothing since ended it. */
  predicate LastsFrom(f: Flag, events: seq<Event>, start: int, n: nat, k: nat)
    requires n <= |events|
  {
    && k < n && Begins(f, Before(events, start, k), events[k])
    && forall j :: k < j < n ==> !EndsAt(f, events, start, j)
  }

  /** In every run the circuit is open exactly when some failure came after which no probe
      started; a probe is under way, and implicit work refused, exactly when one started
      after which no healthy result came on a closed circuit; a recovery is pending exactly
      when one began that has not ended. */
  lemma {:induction false} FlagExactly(f: Flag, events: seq<Event>, start: int, n: nat)
    requires n <= |events|
    ensures Holds(f, Before(events, start, n)) <==> exists k: nat :: LastsFrom(f, events, start, n, k)
  {
    if n > 0 {
      var c, e := Before(events, start, n - 1), events[n - 1];
      FlagExactly(f, events, start, n - 1);
      FlagStep(f, c, e);
      if Begins(f, c, e) {
        assert LastsFrom(f, events, start, n, n - 1);
      } else if Holds(f, c) && !Ends(f, c, e) {
        var k: nat :| LastsFrom(f, events, start, n - 1, k);
        assert LastsFrom(f, events, start, n, k);
      } else {
        forall k: nat ensures !LastsFrom(f, events, start, n, k) {
          if LastsFrom(f, events, start, n, k) {
            assert EndsAt(f, events, start, n - 1) <==> Ends(f, c, e);
            assert k != n - 1;
            assert LastsFrom(f, events, start, n - 1, k);
          }
        }
      }
    }
  }

  // ----- Inputs -----

  /** Which input is noted: the last one the Worker was lost on, or the one that is
      blocked. */
  datatype Note = Lost | Blocked

  function Noted(m: Note, c: Circuit): nat { if m.Lost? then c.failedInput else c.blocked }

  predicate Notes(m: Note, c: Circuit, e: Event) {
    match m
    case Lost => WorkerLost(c, e)
    case Blocked => ProbeStarts(c, e) || (Opens(c, e) && !c.failed)
  }

  lemma NoteStep(m: Note, c: Circuit, e: Event)
    ensures Noted(m, Handle(c, e)) == if Notes(m, c, e) then c.input else Noted(m, c)
  {
  }

  predicate NotesAt(m: Note, events: seq<Event>, start: int, k: nat)
    requires k < |events|
  {
    Notes(m, Before(events, start, k), events[k])
  }

  predicate NotedLast(m: Note, events: seq<Event>, start: int, n: nat, k: nat)
    requires n <= |events|
  {
    k < n && NotesAt(m, events, start, k) && forall j :: k < j < n ==> !NotesAt(m, events, start, j)
  }

  /** The failed input is the one the Worker was last lost on; the blocked input is the one
      on which the circuit last opened from closed or a probe last started. */
  lemma {:induction false} NoteExactly(m: Note, events: seq<Event>, start: int, n: nat)
    requires n <= |events|
    ensures forall k: nat :: NotedLast(m, events, start, n, k) ==>
      Noted(m, Before(events, start, n)) == Before(events, start, k).input
    ensures (forall k :: 0 <= k < n ==> !NotesAt(m, events, start, k)) ==> Noted(m, Before(events, start, n)) == 0
  {
    if n > 0 {
      NoteExactly(m, events, start, n - 1);
      NoteStep(m, Before(events, start, n - 1), events[n - 1]);
      forall k: nat | NotedLast(m, events, start, n, k)
        ensures Noted(m, Before(events, start, n)) == Before(events, start, k).input
      {
        if k < n - 1 {
          assert NotedLast(m, events, start, n - 1, k) && !NotesAt(m, events, start, n - 1);
        } else {
          assert NotesAt(m, events, start, n - 1);
        }
      }
      if forall k :: 0 <= k < n ==> !NotesAt(m, events, start, k) {
        assert !NotesAt(m, events, start, n - 1);
      }
    }
  }

  // ----- Changes of the input -----

  predicate Sets(e: Event, key: string) { e.Changing? && e.configuration.Some? && e.configuration.value.0 == key }

  predicate SetLast(events: seq<Event>, n: nat, key: string, k: nat)
    requires n <= |events|
  {
    k < n && Sets(events[k], key) && forall j :: k < j < n ==> !Sets(events[j], key)
  }

  /** The value a configuration was last given. */
  predicate Given(events: seq<Event>, n: nat, key: string, value: string)
    requires n <= |events|
  {
    exists k :: 0 <= k < n && SetLast(events, n, key, k) && events[k].configuration.value.1 == value
  }

  predicate Knows(c: Circuit, key: string, value: string) {
    key in c.configurations && c.configurations[key] == value
  }

  lemma KnowsStep(c: Circuit, e: Event, key: string, value: string)
    ensures Knows(Handle(c, e), key, value) <==>
      if Sets(e, key) then e.configuration.value.1 == value else Knows(c, key, value)
  {
  }

  lemma {:induction false} KnowsWhatWasGiven(events: seq<Event>, start: int, n: nat, key: string, value: string)
    requires n <= |events|
    ensures Knows(Before(events, start, n), key, value) <==> Given(events, n, key, value)
  {
    if n > 0 {
      var e := events[n - 1];
      KnowsWhatWasGiven(events, start, n - 1, key, value);
      KnowsStep(Before(events, start, n - 1), e, key, value);
      if Sets(e, key) {
        assert SetLast(events, n, key, n - 1);
        assert forall k: nat :: SetLast(events, n, key, k) ==> k == n - 1;
      } else {
        assert forall k: nat :: SetLast(events, n, key, k) <==> SetLast(events, n - 1, key, k);
      }
    }
  }

  /** A change moves the input unless it gives a configuration the value it has. */
  predicate Moves(events: seq<Event>, k: nat)
    requires k < |events|
  {
    && events[k].Changing?
    && (events[k].configuration.Some? ==>
          !Given(events, k, events[k].configuration.value.0, events[k].configuration.value.1))
  }

  function Changes(events: seq<Event>, n: nat): nat
    requires n <= |events|
  {
    if n == 0 then 0 else Changes(events, n - 1) + if Moves(events, n - 1) then 1 else 0
  }

  lemma InputStep(c: Circuit, e: Event)
    ensures Handle(c, e).input == c.input +
      if e.Changing? && (e.configuration.Some? ==>
        !Knows(c, e.configuration.value.0, e.configuration.value.1)) then 1 else 0
  {
  }

  /** The input counts the changes that changed something. */
  lemma {:induction false} InputCountsChanges(events: seq<Event>, start: int, n: nat)
    requires n <= |events|
    ensures Before(events, start, n).input == Changes(events, n)
  {
    if n > 0 {
      var c, e := Before(events, start, n - 1), events[n - 1];
      InputCountsChanges(events, start, n - 1);
      InputStep(c, e);
      if e.Changing? && e.configuration.Some? {
        KnowsWhatWasGiven(events, start, n - 1, e.configuration.value.0, e.configuration.value.1);
      }
    }
  }
}
