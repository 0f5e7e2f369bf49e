/** The parent's deadlines for commands sent to the Worker. */
module Watchdog {
  // Each event is a function of one waiting entry; the class is proved to apply it to
  // the right entries, and the laws hold over every run of events.

  import opened Options
  import opened Lanes

  datatype Key = Key(epoch: nat, id: int)

  datatype Command = Mutating | Reading(op: Method)

  /** What an invalidated read is allowed: to finish its commit, to deliver after the
      commit, or nothing. */
  datatype Policy = FinishSync | Settling | Interrupt

  datatype Waiting = Waiting(key: Key, command: Command, sent: int, started: Option<int>, cancelled: Option<int>,
                             synchronized: bool, activity: Option<nat>, activityAt: Option<int>, policy: Option<Policy>)

  datatype Limits = Limits(request: nat, global: nat, preparation: nat, mutation: nat, cancellation: nat)

  /** A cancellation cell as read by the parent; a corrupted one reads as nothing. */
  datatype Reading = Corrupt | Live | ByClient | ByContent | ByDisposal

  datatype Progress = Progress(epoch: nat, id: int, inCommit: bool, activity: nat)

  datatype Reason = InvalidCell | CancellationDeadline | ExecutionDeadline | QueueDeadline

  // ----- One entry -----

  function New(key: Key, command: Command, now: int): Waiting {
    Waiting(key, command, now, None, None, false, None, None, None)
  }

  function Invalidated(w: Waiting, finish: bool): Waiting {
    if w.policy == Some(Settling) then w
    else if !finish then w.(policy := Some(Interrupt))
    else if w.policy.None? then w.(policy := Some(FinishSync))
    else w
  }

  function Begun(w: Waiting, now: int): Waiting {
    if w.started.None? then w.(started := Some(now)) else w
  }

  function Synchronized(w: Waiting, now: int): Waiting {
    var s := w.(synchronized := true);
    if w.policy == Some(FinishSync) && w.cancelled.Some? then s.(policy := Some(Settling), cancelled := Some(now))
    else s
  }

  function LimitOf(l: Limits, c: Command): nat {
    if c.Mutating? then l.mutation
    else if c.op == SemanticReadiness then l.preparation
    else if c.op == References || c.op == Rename || c.op == IncomingCalls then l.global
    else l.request
  }

  predicate Committing(w: Waiting, p: Option<Progress>) {
    && w.command.Reading? && w.started.Some? && p.Some?
    && p.value.epoch == w.key.epoch && p.value.id == w.key.id && p.value.inCommit
  }

  function ReadingOf(w: Waiting, cells: map<Key, Reading>): Reading {
    if w.command.Reading? && w.key in cells then cells[w.key] else Live
  }

  /** The cancellation is first noticed by a check on a started read. */
  function Noticed(w: Waiting, c: Reading, now: int): Waiting {
    if w.command.Reading? && w.started.Some? && c != Live && w.cancelled.None? then w.(cancelled := Some(now)) else w
  }

  /** A cancelled read inside its commit may finish it. */
  function Spared(w: Waiting, c: Reading, committing: bool): Waiting {
    if committing && w.cancelled.Some? && w.policy != Some(Settling) && (c == ByClient || c == ByContent)
    then w.(policy := Some(FinishSync)) else w
  }

  /** The commit is over: the read has one more grace period to deliver. */
  function Rearmed(w: Waiting, committing: bool, now: int): Waiting {
    if w.policy == Some(FinishSync) && !committing && w.cancelled.Some?
    then w.(policy := Some(Settling), cancelled := Some(now)) else w
  }

  function Noted(w: Waiting, p: Option<Progress>, committing: bool, now: int): Waiting {
    if committing && p.Some? && w.activity != Some(p.value.activity)
    then w.(activity := Some(p.value.activity), activityAt := Some(now)) else w
  }

  function Checked(w: Waiting, c: Reading, p: Option<Progress>, now: int): Waiting {
    var committing := Committing(w, p);
    Noted(Rearmed(Spared(Noticed(w, c, now), c, committing), committing, now), p, committing, now)
  }

  /** Since when the cancellation grace runs. */
  function Since(w: Waiting): Option<int> {
    if w.cancelled.None? then None
    else if w.activityAt.Some? && w.activityAt.value > w.cancelled.value then w.activityAt
    else w.cancelled
  }

  function Max(a: nat, b: nat): nat { if a >= b then a else b }

  /** Why the checked entry ends the Worker, if it does. */
  function ReasonOf(l: Limits, w: Waiting, c: Reading, p: Option<Progress>, now: int): Option<Reason> {
    var draining := w.policy == Some(FinishSync) && Committing(w, p);
    if c == Corrupt then Some(InvalidCell)
    else if !draining && Since(w).Some? && now - Since(w).value >= l.cancellation then Some(CancellationDeadline)
    else if w.started.Some? && now - w.started.value >= LimitOf(l, w.command) then Some(ExecutionDeadline)
    else if w.started.None? && now - w.sent >= Max(LimitOf(l, w.command), l.preparation) then Some(QueueDeadline)
    else None
  }

  // ----- All entries -----

  predicate DistinctKeys(ws: seq<Waiting>) {
    forall i, j :: 0 <= i < j < |ws| ==> ws[i].key != ws[j].key
  }

  function Find(ws: seq<Waiting>, key: Key, from: nat): (i: nat)
    requires from <= |ws|
    ensures from <= i <= |ws|
    ensures i < |ws| ==> ws[i].key == key
    ensures forall j :: from <= j < i ==> ws[j].key != key
    decreases |ws| - from
  {
    if from == |ws| || ws[from].key == key then from else Find(ws, key, from + 1)
  }

  /** A checked entry and whether it is overdue. */
  datatype Examined = Examined(w: Waiting, reason: Option<Reason>)

  function Examine(l: Limits, cells: map<Key, Reading>, p: Option<Progress>, now: int, w: Waiting): Examined {
    var c := ReadingOf(w, cells);
    var v := Checked(w, c, p, now);
    Examined(v, ReasonOf(l, v, c, p, now))
  }

  function Examiner(l: Limits, cells: map<Key, Reading>, p: Option<Progress>, now: int): Waiting -> Examined {
    (w: Waiting) => Examine(l, cells, p, now, w)
  }

  /** What a check does: the first entry that is overdue ends everything. */
  datatype Verdict = Alive(ws: seq<Waiting>) | Unresponsive(reason: Reason)

  function CheckTo(f: Waiting -> Examined, ws: seq<Waiting>, n: nat): Verdict
    requires n <= |ws|
  {
    if n == 0 then Alive([])
    else
      var before := CheckTo(f, ws, n - 1);
      if before.Unresponsive? then before
      else
        var e := f(ws[n - 1]);
        if e.reason.Some? then Unresponsive(e.reason.value) else Alive(before.ws + [e.w])
  }

  // ----- The object -----

  class SemanticWorkerWatchdog {
    const limits: Limits
    var waiting: seq<Waiting>
    /** Set once: the watchdog has reported the Worker and watches no more. */
    var reported: Option<Reason>

    ghost predicate Valid()
      reads this
    {
      DistinctKeys(waiting) && (reported.Some? ==> waiting == [])
    }

    constructor (limits: Limits)
      ensures Valid() && this.limits == limits && waiting == [] && reported.None?
    {
      this.limits, waiting, reported := limits, [], None;
    }

    method Sent(key: Key, command: Command, now: int)
      requires Valid() && reported.None?
      modifies this`waiting
      ensures Valid()
      ensures forall w :: w in waiting <==> w == New(key, command, now) || (w in old(waiting) && w.key != key)
    {
      var i := Find(waiting, key, 0);
      if i < |waiting| {
        ghost var before := waiting;
        waiting := waiting[i := New(key, command, now)];
        ReplacesOne(before, i, New(key, command, now));
      } else {
        waiting := waiting + [New(key, command, now)];
      }
    }

    method Invalidate(key: Key, finish: bool)
      requires Valid()
      modifies this`waiting
      ensures Valid() && Touched(old(waiting), waiting, key, w => Invalidated(w, finish))
    {
      var i := Find(waiting, key, 0);
      if i < |waiting| { waiting := waiting[i := Invalidated(waiting[i], finish)]; }
    }

    method Execution(key: Key, synchronized: bool, now: int)
      requires Valid()
      modifies this`waiting
      ensures Valid()
      ensures Touched(old(waiting), waiting, key, w => if synchronized then Synchronized(w, now) else Begun(w, now))
    {
      var i := Find(waiting, key, 0);
      if i < |waiting| {
        var w := waiting[i];
        if synchronized {
          waiting := waiting[i := Synchronized(w, now)];
        } else {
          waiting := waiting[i := Begun(w, now)];
        }
      }
    }

    /** A reply for the entry; `matches` says that it answers this very command. */
    method Settled(key: Key, matches: bool)
      requires Valid()
      modifies this`waiting
      ensures Valid()
      ensures forall w :: w in waiting <==> w in old(waiting) && !(matches && w.key == key)
    {
      var i := Find(waiting, key, 0);
      if i < |waiting| && matches {
        ghost var before := waiting;
        waiting := waiting[..i] + waiting[i + 1..];
        RemovesOne(before, i);
      }
    }

    method Check(cells: map<Key, Reading>, p: Option<Progress>, now: int)
      requires Valid() && reported.None?
      modifies this
      ensures Valid()
      ensures var v := CheckTo(Examiner(limits, cells, p, now), old(waiting), |old(waiting)|);
        if v.Alive? then reported.None? && waiting == v.ws else reported == Some(v.reason) && waiting == []
    {
      var v := CheckAll(Examiner(limits, cells, p, now), waiting);
      if v.Unresponsive? {
        waiting := [];
        reported := Some(v.reason);
      } else {
        ExaminerKeepsKeys(limits, cells, p, now);
        CheckKeepsKeys(Examiner(limits, cells, p, now), waiting, |waiting|);
        waiting := v.ws;
      }
    }
  }

  method CheckAll(f: Waiting -> Examined, ws: seq<Waiting>) returns (v: Verdict)
    ensures v == CheckTo(f, ws, |ws|)
  {
    var checked: seq<Waiting> := [];
    for n := 0 to |ws|
      invariant CheckTo(f, ws, n) == Alive(checked)
    {
      var e := f(ws[n]);
      if e.reason.Some? {
        UnresponsiveStays(f, ws, n + 1, |ws|);
        return Unresponsive(e.reason.value);
      }
      checked := checked + [e.w];
    }
    v := Alive(checked);
  }

  /** The entry of `key`, if any, was put through `f`; nothing else changed. */
  ghost predicate Touched(before: seq<Waiting>, after: seq<Waiting>, key: Key, f: Waiting -> Waiting) {
    |after| == |before| && forall i :: 0 <= i < |before| ==>
      after[i] == if before[i].key == key then f(before[i]) else before[i]
  }

  lemma ReplacesOne(ws: seq<Waiting>, i: nat, w: Waiting)
    requires i < |ws| && DistinctKeys(ws) && ws[i].key == w.key
    ensures forall x :: x in ws[i := w] <==> x == w || (x in ws && x.key != w.key)
  {
    var after := ws[i := w];
    forall x ensures x in after <==> x == w || (x in ws && x.key != w.key) {
      if x in ws && x.key != w.key {
        var j :| 0 <= j < |ws| && ws[j] == x;
        assert after[j] == x;
      }
      if x in after {
        var j :| 0 <= j < |after| && after[j] == x;
        assert j != i ==> ws[j] == x && ws[j].key != ws[i].key;
      }
      assert after[i] == w;
    }
  }

  lemma RemovesOne(ws: seq<Waiting>, i: nat)
    requires i < |ws| && DistinctKeys(ws)
    ensures forall x :: x in ws[..i] + ws[i + 1..] <==> x in ws && x.key != ws[i].key
  {
    var after := ws[..i] + ws[i + 1..];
    forall x ensures x in after <==> x in ws && x.key != ws[i].key {
      if x in ws && x.key != ws[i].key {
        var j :| 0 <= j < |ws| && ws[j] == x;
        assert x == if j < i then after[j] else after[j - 1];
      }
      if x in after {
        var j :| 0 <= j < |after| && after[j] == x;
        var k := if j < i then j else j + 1;
        assert ws[k] == x && k != i;
        assert ws[k].key != ws[i].key;
      }
    }
  }

  lemma {:induction false} UnresponsiveStays(f: Waiting -> Examined, ws: seq<Waiting>, m: nat, n: nat)
    requires m <= n <= |ws| && CheckTo(f, ws, m).Unresponsive?
    ensures CheckTo(f, ws, n) == CheckTo(f, ws, m)
  {
    if m < n { UnresponsiveStays(f, ws, m, n - 1); }
  }

  lemma {:induction false} CheckKeepsKeys(f: Waiting -> Examined, ws: seq<Waiting>, n: nat)
    requires n <= |ws| && CheckTo(f, ws, n).Alive? && forall w :: f(w).w.key == w.key
    ensures |CheckTo(f, ws, n).ws| == n && forall i :: 0 <= i < n ==> CheckTo(f, ws, n).ws[i].key == ws[i].key
  {
    if n > 0 { CheckKeepsKeys(f, ws, n - 1); }
  }

  lemma ExaminerKeepsKeys(l: Limits, cells: map<Key, Reading>, p: Option<Progress>, now: int)
    ensures forall w :: Examiner(l, cells, p, now)(w).w.key == w.key
  {
  }

  // ----- What surviving a check means -----

  /** Within its caps at `now`: run for less than its limit since it started, or waited
      less than the longer of limit and preparation since it was sent. */
  predicate WithinCaps(l: Limits, w: Waiting, now: int) {
    && (w.started.Some? ==> now - w.started.value < LimitOf(l, w.command))
    && (w.started.None? ==> now - w.sent < Max(LimitOf(l, w.command), l.preparation))
  }

  lemma {:induction false} SurvivorWasExamined(f: Waiting -> Examined, ws: seq<Waiting>, n: nat, i: nat)
    requires n <= |ws| && i < n && CheckTo(f, ws, n).Alive?
    ensures |CheckTo(f, ws, n).ws| == n && f(ws[i]).reason.None? && CheckTo(f, ws, n).ws[i] == f(ws[i]).w
  {
    if n > 1 { SurvivorWasExamined(f, ws, n - 1, if i < n - 1 then i else 0); }
  }

  lemma ExaminedWithinCaps(l: Limits, cells: map<Key, Reading>, p: Option<Progress>, now: int, w: Waiting)
    requires Examine(l, cells, p, now, w).reason.None?
    ensures var v := Examine(l, cells, p, now, w).w;
      && WithinCaps(l, v, now) && v.key == w.key && v.command == w.command && v.sent == w.sent && v.started == w.started
  {
  }

  /** A command that survives a check is within its caps, and these count from when it was
      sent and first started: the check renewed neither. */
  lemma SurvivorsAreWithinCaps(l: Limits, ws: seq<Waiting>, cells: map<Key, Reading>, p: Option<Progress>, now: int,
                               i: nat)
    requires i < |ws| && CheckTo(Examiner(l, cells, p, now), ws, |ws|).Alive?
    ensures var after := CheckTo(Examiner(l, cells, p, now), ws, |ws|).ws;
      && |after| == |ws| && WithinCaps(l, after[i], now)
      && after[i].key == ws[i].key && after[i].command == ws[i].command
      && after[i].sent == ws[i].sent && after[i].started == ws[i].started
  {
    SurvivorWasExamined(Examiner(l, cells, p, now), ws, |ws|, i);
    ExaminedWithinCaps(l, cells, p, now, ws[i]);
  }

  // ----- What is reported, and when -----

  /** The cap of a command: its own for mutations, for readiness that of preparation, for the
      workspace-wide reads the global one, and the request's otherwise. */
  function Cap(l: Limits, c: Command): nat {
    match c
    case Mutating => l.mutation
    case Reading(op) =>
      match op
      case SemanticReadiness => l.preparation
      case References => l.global
      case Rename => l.global
      case IncomingCalls => l.global
      case _ => l.request
  }

  /** The Worker says that it is in the commit of this very read. */
  predicate InCommit(w: Waiting, p: Option<Progress>) {
    && w.command.Reading? && w.started.Some?
    && p.Some? && p.value.inCommit && p.value.epoch == w.key.epoch && p.value.id == w.key.id
  }

  /** Since when a cancelled read is out of patience, if it is: since its cancellation was
      noticed, or since the commit last showed activity. The commit itself is waited for, if
      the client or an edit cancelled the read or a mutation let it finish; and when such a
      commit is over, patience begins anew. */
  function OutOfPatience(w: Waiting, c: Reading, p: Option<Progress>): Option<int> {
    if w.cancelled.None? then None
    else if InCommit(w, p) then
      if w.policy != Some(Settling) && (c == ByClient || c == ByContent || w.policy == Some(FinishSync)) then None
      else if w.activity != Some(p.value.activity) then None
      else Some(Later(w.cancelled.value, w.activityAt))
    else if w.policy == Some(FinishSync) then None
    else Some(Later(w.cancelled.value, w.activityAt))
  }

  function Later(a: int, b: Option<int>): int { if b.Some? && b.value > a then b.value else a }

  function Overdue(l: Limits, w: Waiting, c: Reading, p: Option<Progress>, now: int): Option<Reason> {
    if c == Corrupt then Some(InvalidCell)
    else if OutOfPatience(w, c, p).Some? && now - OutOfPatience(w, c, p).value >= l.cancellation then
      Some(CancellationDeadline)
    else if w.started.Some? then
      if now - w.started.value >= Cap(l, w.command) then Some(ExecutionDeadline) else None
    else if now - w.sent >= Cap(l, w.command) && now - w.sent >= l.preparation then Some(QueueDeadline)
    else None
  }

  /** A command is reported exactly when it is overdue, under the first reason that applies:
      its cell is corrupt, its cancelled read is out of patience for the whole grace period, it
      runs for its cap, or it waits for its cap and that of preparation. */
  lemma ReportedExactly(l: Limits, cells: map<Key, Reading>, p: Option<Progress>, now: int, w: Waiting)
    requires l.cancellation > 0
    ensures Examine(l, cells, p, now, w).reason == Overdue(l, w, ReadingOf(w, cells), p, now)
  {
    var c := ReadingOf(w, cells);
    var v := Checked(w, c, p, now);
    assert LimitOf(l, w.command) == Cap(l, w.command);
    if c != Corrupt { PatienceExactly(l, w, c, p, now, v); }
  }

  lemma PatienceExactly(l: Limits, w: Waiting, c: Reading, p: Option<Progress>, now: int, v: Waiting)
    requires l.cancellation > 0 && v == Checked(w, c, p, now) && c != Corrupt
    ensures
      (!(v.policy == Some(FinishSync) && Committing(v, p)) && Since(v).Some? && now - Since(v).value >= l.cancellation)
      <==> OutOfPatience(w, c, p).Some? && now - OutOfPatience(w, c, p).value >= l.cancellation
  {
  }

  /** A check notices the cancellation of a started read, at its own time. Otherwise it moves
      the reference only once, when a commit that was waited for is over. */
  lemma CancellationIsNoticed(l: Limits, cells: map<Key, Reading>, p: Option<Progress>, now: int, w: Waiting)
    ensures var v, c := Examine(l, cells, p, now, w).w, ReadingOf(w, cells);
      && (w.cancelled.None? ==>
            v.cancelled == if w.command.Reading? && w.started.Some? && c != Live then Some(now) else None)
      && (w.cancelled.Some? ==>
            v.cancelled == if w.policy == Some(FinishSync) && !InCommit(w, p) then Some(now) else w.cancelled)
  {
  }

  /** So a cancelled read that never commits is reported by the first check that comes a
      grace period after the one that noticed it, or by an earlier one for its cap. */
  lemma CancelledReadIsReported(l: Limits, cells: map<Key, Reading>, w: Waiting, first: int, second: int)
    requires l.cancellation > 0 && w.command.Reading? && w.started.Some? && w.cancelled.None?
    requires w.policy != Some(FinishSync) && w.activityAt.None? && ReadingOf(w, cells) != Live
    requires second - first >= l.cancellation
    ensures var v := Examine(l, cells, None, first, w);
      v.reason.Some? || Examine(l, cells, None, second, v.w).reason.Some?
  {
  }

  /** A check reports the first overdue command, and only if there is one. */
  lemma {:induction false} FirstOverdueIsReported(f: Waiting -> Examined, ws: seq<Waiting>, n: nat)
    requires n <= |ws|
    ensures CheckTo(f, ws, n).Unresponsive? <==> exists i :: 0 <= i < n && f(ws[i]).reason.Some?
    ensures forall i :: 0 <= i < n && f(ws[i]).reason.Some? && (forall j :: 0 <= j < i ==> f(ws[j]).reason.None?) ==>
      CheckTo(f, ws, n) == Unresponsive(f(ws[i]).reason.value)
  {
    if n > 0 { FirstOverdueIsReported(f, ws, n - 1); }
  }

  // ----- Every run -----

  datatype Event =
    | Invalidating(finish: bool)
    | Starting(now: int)
    | Synchronizing(now: int)
    | Checking(cell: Reading, progress: Option<Progress>, now: int)

  /** What an event does to the entry it concerns. */
  function Handle(w: Waiting, e: Event): Waiting {
    match e
    case Invalidating(finish) => Invalidated(w, finish)
    case Starting(now) => Begun(w, now)
    case Synchronizing(now) => Synchronized(w, now)
    case Checking(cell, progress, now) => Checked(w, cell, progress, now)
  }

  /** The entry after the first `n` events since it was sent. */
  function Play(w: Waiting, events: seq<Event>, n: nat): Waiting
    requires n <= |events|
  {
    if n == 0 then w else Handle(Play(w, events, n - 1), events[n - 1])
  }

  /** Only a cancelled read settles. */
  predicate Sane(w: Waiting) { w.policy == Some(Settling) ==> w.cancelled.Some? }

  lemma HandleKeepsClocks(w: Waiting, e: Event)
    requires Sane(w)
    ensures var v := Handle(w, e);
      && Sane(v) && v.sent == w.sent && v.key == w.key && v.command == w.command
      && (w.started.Some? ==> v.started == w.started)
      && (w.policy == Some(Settling) ==> v.policy == Some(Settling) && v.cancelled == w.cancelled)
      && (w.cancelled.Some? ==> v.cancelled.Some?)
      && (w.cancelled.Some? && v.cancelled != w.cancelled ==> w.policy != Some(Settling) && v.policy == Some(Settling))
  {
  }

  /** No synchronization, cancellation, activity or later mutation renews the caps of a
      command, and `Settling` is final. */
  lemma {:induction false} CapsAreNeverRenewed(w: Waiting, events: seq<Event>, m: nat, n: nat)
    requires m <= n <= |events| && Sane(w)
    ensures var a, b := Play(w, events, m), Play(w, events, n);
      && Sane(b) && b.sent == a.sent && b.command == a.command
      && (a.started.Some? ==> b.started == a.started)
      && (a.policy == Some(Settling) ==> b.policy == Some(Settling) && b.cancelled == a.cancelled)
  {
    if m < n {
      CapsAreNeverRenewed(w, events, m, n - 1);
      HandleKeepsClocks(Play(w, events, n - 1), events[n - 1]);
    } else if n > 0 {
      CapsAreNeverRenewed(w, events, m - 1, n - 1);
      HandleKeepsClocks(Play(w, events, n - 1), events[n - 1]);
    }
  }

  /** How often the grace reference was moved after it was set. */
  function Rearms(w: Waiting, events: seq<Event>, n: nat): nat
    requires n <= |events|
  {
    if n == 0 then 0
    else
      var a, b := Play(w, events, n - 1), Play(w, events, n);
      Rearms(w, events, n - 1) + if a.cancelled.Some? && b.cancelled != a.cancelled then 1 else 0
  }

  /** The grace reference of a command is moved at most once, and not before it settles. */
  lemma {:induction false} GraceIsRearmedAtMostOnce(w: Waiting, events: seq<Event>, n: nat)
    requires n <= |events| && Sane(w)
    ensures Rearms(w, events, n) <= 1
    ensures Rearms(w, events, n) == 1 ==> Play(w, events, n).policy == Some(Settling)
  {
    if n > 0 {
      GraceIsRearmedAtMostOnce(w, events, n - 1);
      CapsAreNeverRenewed(w, events, n - 1, n - 1);
      HandleKeepsClocks(Play(w, events, n - 1), events[n - 1]);
    }
  }
}
