/**
 Cooldown and debounce over whole runs (internal/webhook/manager.go, handleMatch,
 drainPendingLocked and flushDebounced).
 */
module EngineTiming {
  import opened Base
  import opened Subscription
  import opened Engine

  /** What holds of one object's runtime at any moment. */
  ghost predicate Timed(e: State, o: nat)
    requires o < |e.objs|
  {
    var x := e.objs[o];
    && (x.rt.timer != NoTimer <==> x.rt.pending != [])
    && (x.rt.pending != [] ==> x.openedAt <= e.now)
    && (x.rt.timer.Armed? || x.rt.timer.Fired? ==>
          x.rt.timer.due == x.openedAt + Millis(x.rules.debounceMs))
    && (x.rt.timer != NoTimer ==> Millis(x.rules.debounceMs) > 0)
    && (x.rt.timer.Fired? ==> e.now >= x.rt.timer.due)
    && (x.rt.lastFire.Some? ==> x.rt.lastFire.value <= e.now)
    && (x.rt.pending != [] && x.rt.lastFire.Some? && x.rules.cooldownMs > 0 ==>
          x.openedAt - x.rt.lastFire.value >= Millis(x.rules.cooldownMs))
  }

  /** What holds of one drained task: its window's delay has passed, and its object remembers it. */
  ghost predicate TaskTimed(e: State, i: nat)
    requires i < |e.tasks|
  {
    var t := e.tasks[i];
    && t.obj < |e.objs|
    && t.at - t.openedAt >= Max(0, Millis(e.objs[t.obj].rules.debounceMs))
    && e.objs[t.obj].rt.lastFire.Some?
    && t.at <= e.objs[t.obj].rt.lastFire.value
  }

  ghost predicate Spaced(e: State, i: nat, j: nat)
    requires i < j < |e.tasks|
  {
    var t, u := e.tasks[i], e.tasks[j];
    t.obj == u.obj < |e.objs| && e.objs[u.obj].rules.cooldownMs > 0 ==>
      u.openedAt - t.at >= Millis(e.objs[u.obj].rules.cooldownMs)
  }

  lemma AcceptTimed(e: State, o: nat, ev: Event<Entry>)
    requires o < |e.objs| && Timed(e, o)
    ensures Timed(Accept(e, o, ev), o)
  {
  }

  lemma FlushTimed(e: State, o: nat)
    requires o < |e.objs| && Timed(e, o)
    ensures Timed(FlushObj(e, o), o)
  {
  }

  lemma StepTimed(c: Config, e: State, s: Step, o: nat)
    requires o < |Next(c, e, s).objs|
    requires o < |e.objs| ==> Timed(e, o)
    ensures Timed(Next(c, e, s), o)
  {
    var e' := Next(c, e, s);
    if !Loud(s) {
      StepQuiet(c, e, s);
      if o < |e.objs| {
        QuietTimed(c, e, s, o);
      } else {
        assert e'.objs[o] == Compiled(e'.objs[o].rules);
      }
    } else if s.o != o || o >= |e.objs| {
      if o < |e.objs| { StepLoudElsewhere(c, e, s, o); }
      if Enabled(c, e, s) && s.NotifyStep? { VisitFrame(e, s.n, s.o, s.hit); }
    } else if Enabled(c, e, s) {
      match s
      case NotifyStep(n, _, hit) =>
        AcceptTimed(e.(notes := e.notes[n := e.notes[n].(todo := e.notes[n].todo - {o})]), o, e.notes[n].ev);
      case FlushDebounced(_) => FlushTimed(e, o);
    }
  }

  lemma QuietTimed(c: Config, e: State, s: Step, o: nat)
    requires !Loud(s) && o < |e.objs| && Timed(e, o)
    ensures o < |Next(c, e, s).objs| && Timed(Next(c, e, s), o)
  {
    StepQuiet(c, e, s);
    var x, x' := e.objs[o], Next(c, e, s).objs[o];
    assert Quiet(x, x');
    StepTimer(c, e, s, o);
  }

  /** A quiet step stops an armed timer or lets it fire when due, and touches no other timer. */
  lemma StepTimer(c: Config, e: State, s: Step, o: nat)
    requires !Loud(s) && o < |e.objs|
    ensures var e' := Next(c, e, s);
      o < |e'.objs| && e.now <= e'.now
      && var t, t' := e.objs[o].rt.timer, e'.objs[o].rt.timer;
        || t' == t
        || (t.Armed? && t' == Stopped)
        || (t.Armed? && t' == Timer.Fired(t.due) && e.now >= t.due)
  {
    if Enabled(c, e, s) {
      match s
      case Install(rules) =>
      case Remove(id) =>
      case AutoDisable(i) =>
      case Answer(_, _) =>
      case Record(_, _) =>
      case _ =>
    }
  }

  /** A task in the log after a loud step is an old one, or the one just drained from s.o. */
  lemma NewestTask(c: Config, e: State, s: Step)
    requires Loud(s) && |Next(c, e, s).tasks| > |e.tasks|
    requires s.o < |e.objs| ==> Timed(e, s.o)
    ensures var e' := Next(c, e, s);
      && |e'.tasks| == |e.tasks| + 1 && s.o < |e.objs| == |e'.objs|
      && var t, x := e'.tasks[|e.tasks|], e.objs[s.o];
         && t.obj == s.o && t.at == e.now && e'.objs[s.o].rt.lastFire == Some(e.now)
         && (s.FlushDebounced? ==>
               t.openedAt == x.openedAt && x.rt.pending != [] && x.rt.timer.Fired?)
         && (s.NotifyStep? ==>
               t.openedAt == e.now && Millis(x.rules.debounceMs) <= 0
               && !InCooldown(x.rules, x.rt.lastFire, e.now))
  {
    if s.NotifyStep? {
      VisitFrame(e, s.n, s.o, s.hit);
      NewestAccepted(e.(notes := e.notes[s.n := e.notes[s.n].(todo := e.notes[s.n].todo - {s.o})]),
                     s.o, e.notes[s.n].ev);
    }
  }

  lemma NewestAccepted(e: State, o: nat, ev: Event<Entry>)
    requires o < |e.objs| && |Accept(e, o, ev).tasks| > |e.tasks|
    ensures var e', x := Accept(e, o, ev), e.objs[o];
      && VerdictOf(e, o) == Drained
      && |e'.tasks| == |e.tasks| + 1
      && e'.tasks[|e.tasks|].openedAt == e'.tasks[|e.tasks|].at == e.now
      && e'.objs[o].rt.lastFire == Some(e.now)
      && Millis(x.rules.debounceMs) <= 0 && !InCooldown(x.rules, x.rt.lastFire, e.now)
  {
  }

  /** lastFire never goes back and rules never change. */
  lemma LastFireGrows(c: Config, e: State, s: Step, o: nat)
    requires o < |e.objs| && Timed(e, o)
    ensures var e' := Next(c, e, s);
      o < |e'.objs| && e'.objs[o].rules == e.objs[o].rules
      && (e.objs[o].rt.lastFire.Some? ==>
            e'.objs[o].rt.lastFire.Some? && e'.objs[o].rt.lastFire.value >= e.objs[o].rt.lastFire.value)
  {
    StepExtends(c, e, s);
    if !Loud(s) {
      StepQuiet(c, e, s);
      assert Quiet(e.objs[o], Next(c, e, s).objs[o]);
    } else if s.o != o {
      StepLoudElsewhere(c, e, s, o);
    }
  }

  lemma StepTaskTimed(c: Config, e: State, s: Step, i: nat)
    requires forall o :: 0 <= o < |e.objs| ==> Timed(e, o)
    requires i < |Next(c, e, s).tasks|
    requires i < |e.tasks| ==> TaskTimed(e, i)
    ensures TaskTimed(Next(c, e, s), i)
  {
    StepExtends(c, e, s);
    if i < |e.tasks| {
      assert Next(c, e, s).tasks[i] == e.tasks[i];
      LastFireGrows(c, e, s, e.tasks[i].obj);
    } else {
      if !Loud(s) { StepQuiet(c, e, s); }
      NewestTask(c, e, s);
    }
  }

  lemma StepSpaced(c: Config, e: State, s: Step, i: nat, j: nat)
    requires forall o :: 0 <= o < |e.objs| ==> Timed(e, o)
    requires i < j < |Next(c, e, s).tasks|
    requires i < |e.tasks| ==> TaskTimed(e, i)
    requires j < |e.tasks| ==> Spaced(e, i, j)
    requires j < |e.tasks| ==> e.tasks[j].obj < |e.objs|
    ensures Spaced(Next(c, e, s), i, j)
  {
    var e' := Next(c, e, s);
    StepExtends(c, e, s);
    if j < |e.tasks| {
      assert e'.tasks[i] == e.tasks[i] && e'.tasks[j] == e.tasks[j];
    } else {
      if !Loud(s) { StepQuiet(c, e, s); }
      NewestTask(c, e, s);
      assert e'.tasks[i] == e.tasks[i];
    }
  }

  lemma {:induction false} AlwaysTimed(c: Config, steps: seq<Step>, o: nat)
    requires o < |After(c, steps).objs|
    ensures Timed(After(c, steps), o)
  {
    if steps != [] {
      var before, s := steps[..|steps| - 1], steps[|steps| - 1];
      if o < |After(c, before).objs| {
        AlwaysTimed(c, before, o);
      }
      StepTimed(c, After(c, before), s, o);
    }
  }

  lemma {:induction false} AlwaysTaskTimed(c: Config, steps: seq<Step>, i: nat)
    requires i < |After(c, steps).tasks|
    ensures TaskTimed(After(c, steps), i)
  {
    if steps != [] {
      var before, s := steps[..|steps| - 1], steps[|steps| - 1];
      var e := After(c, before);
      if i < |e.tasks| {
        AlwaysTaskTimed(c, before, i);
      }
      forall o | 0 <= o < |e.objs| ensures Timed(e, o) { AlwaysTimed(c, before, o); }
      StepTaskTimed(c, e, s, i);
    }
  }

  lemma {:induction false} AlwaysSpaced(c: Config, steps: seq<Step>, i: nat, j: nat)
    requires i < j < |After(c, steps).tasks|
    ensures Spaced(After(c, steps), i, j)
  {
    if steps != [] {
      var before, s := steps[..|steps| - 1], steps[|steps| - 1];
      var e := After(c, before);
      if j < |e.tasks| {
        AlwaysSpaced(c, before, i, j);
        AlwaysTaskTimed(c, before, j);
      }
      if i < |e.tasks| {
        AlwaysTaskTimed(c, before, i);
      }
      forall o | 0 <= o < |e.objs| ensures Timed(e, o) { AlwaysTimed(c, before, o); }
      StepSpaced(c, e, s, i, j);
    }
  }

  /** In every run the debounce timer is set exactly while matches are pending. */
  lemma {:induction false} TimerSetIffPending(c: Config, steps: seq<Step>, o: nat)
    requires o < |After(c, steps).objs|
    ensures var rt := After(c, steps).objs[o].rt; rt.timer != NoTimer <==> rt.pending != []
  {
    AlwaysTimed(c, steps, o);
  }

  /**
   In every run any two drains of one compiled subscription are at least its cooldown apart,
   although the cooldown is looked at only when a match is accepted and never on a flush.
   */
  lemma DrainsCooldownApart(c: Config, steps: seq<Step>, i: nat, j: nat)
    requires i < j < |After(c, steps).tasks|
    requires var e := After(c, steps); e.tasks[i].obj == e.tasks[j].obj
    ensures var e := After(c, steps);
      e.tasks[j].obj < |e.objs|
      && (e.objs[e.tasks[j].obj].rules.cooldownMs > 0 ==>
            e.tasks[j].at - e.tasks[i].at >= Millis(e.objs[e.tasks[j].obj].rules.cooldownMs))
  {
    AlwaysSpaced(c, steps, i, j);
    AlwaysTaskTimed(c, steps, i);
    AlwaysTaskTimed(c, steps, j);
  }

  /** The clock never passes the due time of a timer that is armed or about to flush. */
  ghost predicate TimersOnTime(c: Config, steps: seq<Step>) {
    steps != [] ==>
      var e := After(c, steps[..|steps| - 1]);
      var s := steps[|steps| - 1];
      && TimersOnTime(c, steps[..|steps| - 1])
      && (s.Tick? ==> forall o :: 0 <= o < |e.objs| && (e.objs[o].rt.timer.Armed? || e.objs[o].rt.timer.Fired?) ==>
            s.to <= e.objs[o].rt.timer.due)
  }

  lemma StepOnTime(c: Config, e: State, s: Step, o: nat)
    requires o < |Next(c, e, s).objs|
    requires o < |e.objs| ==> Timed(e, o)
    requires o < |e.objs| && (e.objs[o].rt.timer.Armed? || e.objs[o].rt.timer.Fired?) ==>
      e.now <= e.objs[o].rt.timer.due && (s.Tick? ==> s.to <= e.objs[o].rt.timer.due)
    ensures var e' := Next(c, e, s);
      e'.objs[o].rt.timer.Armed? || e'.objs[o].rt.timer.Fired? ==> e'.now <= e'.objs[o].rt.timer.due
  {
    if !Loud(s) {
      StepQuiet(c, e, s);
      if o < |e.objs| {
        StepTimer(c, e, s, o);
        ClockMoves(c, e, s);
      }
    } else {
      ClockMoves(c, e, s);
      if o < |e.objs| && s.o != o {
        StepLoudElsewhere(c, e, s, o);
      }
      if Enabled(c, e, s) && s.NotifyStep? { VisitFrame(e, s.n, s.o, s.hit); }
    }
  }

  lemma ClockMoves(c: Config, e: State, s: Step)
    ensures Next(c, e, s).now == if s.Tick? && s.to >= e.now then s.to else e.now
  {
    if Enabled(c, e, s) {
      match s
      case NotifyStep(n, o, hit) => VisitFrame(e, n, o, hit);
      case _ =>
    }
  }

  /**
   When timers fire on time, a window that was not cut short by an update or a removal is
   drained within its debounce delay of the first match: later matches never extend it.
   */
  lemma {:induction false} WindowNeverOverdue(c: Config, steps: seq<Step>, o: nat)
    requires TimersOnTime(c, steps) && o < |After(c, steps).objs|
    ensures var e := After(c, steps);
      var x := e.objs[o];
      x.rt.pending != [] && x.rt.timer != Stopped ==> e.now <= x.openedAt + Millis(x.rules.debounceMs)
    ensures var e := After(c, steps);
      var x := e.objs[o];
      x.rt.timer.Armed? || x.rt.timer.Fired? ==> e.now <= x.rt.timer.due
  {
    if steps != [] {
      var before, s := steps[..|steps| - 1], steps[|steps| - 1];
      if o < |After(c, before).objs| {
        WindowNeverOverdue(c, before, o);
        AlwaysTimed(c, before, o);
      }
      StepOnTime(c, After(c, before), s, o);
    }
    AlwaysTimed(c, steps, o);
  }

  /** ... and hence every batch leaves exactly its debounce delay after its first match. */
  lemma {:induction false} DrainedExactlyOnTime(c: Config, steps: seq<Step>, i: nat)
    requires TimersOnTime(c, steps) && i < |After(c, steps).tasks|
    ensures var e := After(c, steps);
      var t := e.tasks[i];
      t.obj < |e.objs| && t.at == t.openedAt + Max(0, Millis(e.objs[t.obj].rules.debounceMs))
  {
    AlwaysTaskTimed(c, steps, i);
    if steps != [] {
      var before, s := steps[..|steps| - 1], steps[|steps| - 1];
      var e := After(c, before);
      StepExtends(c, e, s);
      if i < |e.tasks| {
        DrainedExactlyOnTime(c, before, i);
        assert After(c, steps).tasks[i] == e.tasks[i];
      } else {
        if !Loud(s) { StepQuiet(c, e, s); }
        if s.o < |e.objs| {
          AlwaysTimed(c, before, s.o);
          WindowNeverOverdue(c, before, s.o);
        }
        NewestTask(c, e, s);
      }
    }
  }

  /** From e to e' the object o, stopped, kept its pending matches and drained nothing. */
  ghost predicate Stalled(e: State, e': State, o: nat) {
    && o < |e.objs| && o < |e'.objs| && e'.objs[o].rt.timer == Stopped
    && e.objs[o].rt.pending <= e'.objs[o].rt.pending
    && e.tasks <= e'.tasks
    && forall i :: |e.tasks| <= i < |e'.tasks| ==> e'.tasks[i].obj != o
  }

  lemma StoppedStays(c: Config, e: State, s: Step, o: nat)
    requires o < |e.objs| && e.objs[o].rt.timer == Stopped
    ensures Stalled(e, Next(c, e, s), o)
  {
    StepExtends(c, e, s);
    if !Loud(s) {
      StepQuiet(c, e, s);
      StepTimer(c, e, s, o);
      assert Quiet(e.objs[o], Next(c, e, s).objs[o]);
    } else if s.o != o {
      StepLoudElsewhere(c, e, s, o);
    }
  }

  lemma StalledTransitive(e: State, e': State, e'': State, o: nat)
    requires Stalled(e, e', o) && Stalled(e', e'', o)
    ensures Stalled(e, e'', o)
  {
    forall i | |e.tasks| <= i < |e''.tasks| ensures e''.tasks[i].obj != o {
      if i < |e'.tasks| { assert e''.tasks[i] == e'.tasks[i]; }
    }
  }

  /**
   The limit of that promise: once an update or a removal stops an armed timer, the object's
   window never drains. Matches that a notification still brings to it pile up undelivered.
   */
  lemma {:induction false} StoppedWindowNeverDrains(c: Config, before: seq<Step>, rest: seq<Step>, o: nat)
    requires o < |After(c, before).objs| && After(c, before).objs[o].rt.timer == Stopped
    ensures Stalled(After(c, before), After(c, before + rest), o)
  {
    if rest == [] {
      assert before + rest == before;
    } else {
      var most, s := rest[..|rest| - 1], rest[|rest| - 1];
      StoppedWindowNeverDrains(c, before, most, o);
      assert before + rest == before + most + [s];
      AfterSnoc(c, before + most, s);
      StoppedStays(c, After(c, before + most), s, o);
      StalledTransitive(After(c, before), After(c, before + most), After(c, before + rest), o);
    }
  }
}
