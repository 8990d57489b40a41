/**
 No match is lost, doubled or reordered on its way from acceptance to its fate
 (internal/webhook/manager.go, handleMatch to flushDebounced, and worker.go, enqueue to deliver).
 */
module EngineConservation {
  import opened Base
  import opened Subscription
  import opened Engine

  /** The matches of object o in the drained tasks, in draining order. */
  function DrainedMatches(tasks: seq<Task>, o: nat): seq<Entry> {
    if tasks == [] then []
    else
      var t := tasks[|tasks| - 1];
      DrainedMatches(tasks[..|tasks| - 1], o) + if t.obj == o then t.batch.matches else []
  }

  /** How many rows report task t. */
  function Reports(rows: seq<Row>, t: Task): nat {
    if rows == [] then 0
    else Reports(rows[..|rows| - 1], t) + if rows[|rows| - 1].task == Some(t) then 1 else 0
  }

  function IsOf(t: Task): Outcome -> bool {
    (x: Outcome) => x.task == t
  }

  /** How often t occurs in the places of the pool. */
  function InPool(p: Pool, t: Task): nat {
    Occurrences(p.held, t) + Occurrences(p.queue, t) + Occurrences(p.busy, t) + CountIf(p.outcomes, IsOf(t))
    + Occurrences(p.overflow, t) + Occurrences(p.discarded, t)
  }

  /** How often t occurs in all the places a drained task can be in. */
  function Places(e: State, t: Task): nat {
    InPool(e.pool, t) + Reports(e.rows, t)
  }

  ghost predicate Conserved(e: State, o: nat)
    requires o < |e.objs|
  {
    e.objs[o].accepted == DrainedMatches(e.tasks, o) + e.objs[o].rt.pending
  }

  lemma DrainedAppend(tasks: seq<Task>, t: Task, o: nat)
    ensures DrainedMatches(tasks + [t], o)
         == DrainedMatches(tasks, o) + if t.obj == o then t.batch.matches else []
  {
    assert (tasks + [t])[..|tasks|] == tasks;
  }

  lemma ReportsAppend(rows: seq<Row>, r: Row, t: Task)
    ensures Reports(rows + [r], t) == Reports(rows, t) + if r.task == Some(t) then 1 else 0
  {
    assert (rows + [r])[..|rows|] == rows;
  }

  lemma NothingDrained(tasks: seq<Task>, o: nat)
    requires forall i :: 0 <= i < |tasks| ==> tasks[i].obj != o
    ensures DrainedMatches(tasks, o) == []
  {
  }

  lemma VisitConserves(e: State, n: nat, o: nat, hit: bool)
    requires n < |e.notes| && o < |e.objs| && Conserved(e, o)
    ensures Conserved(Visit(e, n, o, hit), o)
  {
    var e1 := e.(notes := e.notes[n := e.notes[n].(todo := e.notes[n].todo - {o})]);
    assert Conserved(e1, o);
    AcceptConserves(e1, o, e.notes[n].ev);
  }

  lemma AcceptConserves(e: State, o: nat, ev: Event<Entry>)
    requires o < |e.objs| && Conserved(e, o)
    ensures Conserved(Accept(e, o, ev), o)
  {
    if VerdictOf(e, o) == Drained {
      DrainConserves(e, o, ev);
    } else {
      Regroup(DrainedMatches(e.tasks, o), e.objs[o].rt.pending, [ev.item]);
    }
  }

  /** The drained task takes the pending matches and the new one with it. */
  lemma DrainConserves(e: State, o: nat, ev: Event<Entry>)
    requires o < |e.objs| && Conserved(e, o) && VerdictOf(e, o) == Drained
    ensures Conserved(Accept(e, o, ev), o)
  {
    var x, e', before := e.objs[o], Accept(e, o, ev), DrainedMatches(e.tasks, o);
    var t := e'.tasks[|e.tasks|];
    assert e'.tasks == e.tasks + [t] && t.obj == o && t.batch.matches == x.rt.pending + [ev.item];
    assert e'.objs[o].rt.pending == [] && e'.objs[o].accepted == x.accepted + [ev.item];
    DrainedAppend(e.tasks, t, o);
    Regroup(before, x.rt.pending, [ev.item]);
    Regroup(DrainedMatches(e'.tasks, o), [], []);
  }

  lemma Regroup(a: seq<Entry>, b: seq<Entry>, c: seq<Entry>)
    ensures (a + b) + c == a + (b + c)
    ensures a + [] == a
  {
  }

  lemma FlushConserves(e: State, o: nat)
    requires o < |e.objs| && Conserved(e, o)
    ensures Conserved(FlushObj(e, o), o)
  {
    var e' := FlushObj(e, o);
    if |e'.tasks| > |e.tasks| {
      DrainedAppend(e.tasks, e'.tasks[|e.tasks|], o);
    }
  }

  lemma StepConserves(c: Config, e: State, s: Step, o: nat)
    requires o < |e.objs| && Conserved(e, o)
    ensures o < |Next(c, e, s).objs| && Conserved(Next(c, e, s), o)
  {
    var e' := Next(c, e, s);
    StepExtends(c, e, s);
    if !Loud(s) {
      StepQuiet(c, e, s);
      assert Quiet(e.objs[o], e'.objs[o]);
    } else if s.o != o {
      ElsewhereConserves(c, e, s, o);
    } else if Enabled(c, e, s) {
      if s.NotifyStep? { VisitConserves(e, s.n, o, s.hit); } else { FlushConserves(e, o); }
    }
  }

  lemma ElsewhereConserves(c: Config, e: State, s: Step, o: nat)
    requires o < |e.objs| && Conserved(e, o) && Loud(s) && s.o != o
    ensures o < |Next(c, e, s).objs| && Conserved(Next(c, e, s), o)
  {
    var e' := Next(c, e, s);
    StepLoudElsewhere(c, e, s, o);
    if |e'.tasks| > |e.tasks| {
      assert e'.tasks == e.tasks + [e'.tasks[|e.tasks|]];
      DrainedAppend(e.tasks, e'.tasks[|e.tasks|], o);
    }
  }

  lemma NewObjectConserved(c: Config, e: State, s: Step, o: nat)
    requires WellFormed(c, e) && |e.objs| <= o < |Next(c, e, s).objs|
    ensures Conserved(Next(c, e, s), o)
  {
    if Loud(s) {
      if Enabled(c, e, s) && s.NotifyStep? { VisitFrame(e, s.n, s.o, s.hit); }
    } else {
      StepQuiet(c, e, s);
      forall i | 0 <= i < |e.tasks| ensures e.tasks[i].obj != o { assert TaskOk(e, i); }
      NothingDrained(e.tasks, o);
    }
  }

  /** A step that drains a task adds exactly that task to the places, and no step removes any. */
  lemma StepPlaces(c: Config, e: State, s: Step, t: Task)
    ensures var e' := Next(c, e, s);
      Places(e', t) == Places(e, t) + Occurrences(e'.tasks, t) - Occurrences(e.tasks, t)
  {
    if Enabled(c, e, s) {
      match s
      case NotifyStep(n, o, hit) => VisitPlaces(e, n, o, hit, t);
      case FlushDebounced(o) => FlushPlaces(e, o, t);
      case PoolStep(m) => MovePlaces(c, e.pool, m, t);
      case Answer(i, ending) => AnswerPlaces(c, e, i, ending, t);
      case Record(j, attempts) => RecordPlaces(e, j, attempts, t);
      case _ =>
    }
  }

  lemma VisitPlaces(e: State, n: nat, o: nat, hit: bool, t: Task)
    requires n < |e.notes| && o < |e.objs|
    ensures var e' := Visit(e, n, o, hit);
      Places(e', t) == Places(e, t) + Occurrences(e'.tasks, t) - Occurrences(e.tasks, t)
  {
    var x := e.objs[o];
    ReportsAppend(e.rows, Row(x.rules.id, e.now, StatusPaused, 0, None), t);
    AcceptPlaces(e.(notes := e.notes[n := e.notes[n].(todo := e.notes[n].todo - {o})]), o, e.notes[n].ev, t);
  }

  lemma AcceptPlaces(e: State, o: nat, ev: Event<Entry>, t: Task)
    requires o < |e.objs|
    ensures var e' := Accept(e, o, ev);
      Places(e', t) == Places(e, t) + Occurrences(e'.tasks, t) - Occurrences(e.tasks, t)
  {
    var x := e.objs[o];
    match VerdictOf(e, o)
    case Exhausted => ReportsAppend(e.rows, Row(x.rules.id, e.now, StatusBudgetExhausted, 0, None), t);
    case Drained =>
      var d := Task(|e.tasks|, x.rules.id, o, BatchOf(Gather(x.rules, x.rt, ev)), e.now, e.now);
      OccurrencesAppend(e.tasks, d, t);
      OccurrencesAppend(e.pool.held, d, t);
    case _ =>
  }

  lemma FlushPlaces(e: State, o: nat, t: Task)
    requires o < |e.objs|
    ensures var e' := FlushObj(e, o);
      Places(e', t) == Places(e, t) + Occurrences(e'.tasks, t) - Occurrences(e.tasks, t)
  {
    var e' := FlushObj(e, o);
    if |e'.tasks| > |e.tasks| {
      OccurrencesAppend(e.tasks, e'.tasks[|e.tasks|], t);
      OccurrencesAppend(e.pool.held, e'.tasks[|e.tasks|], t);
    }
  }

  lemma MovePlaces(c: Config, p: Pool, m: PoolMove, t: Task)
    requires CanMove(p, m)
    ensures InPool(Move(c, p, m), t) == InPool(p, t)
  {
    match m
    case Enqueue(i) => EnqueuePlaces(c, p, i, t);
    case Take =>
      OccurrencesHead(p.queue, t);
      OccurrencesAppend(p.busy, p.queue[0], t);
    case _ =>
  }

  lemma EnqueuePlaces(c: Config, p: Pool, i: nat, t: Task)
    requires i < |p.held|
    ensures InPool(Move(c, p, Enqueue(i)), t) == InPool(p, t)
  {
    OccurrencesWithout(p.held, i, t);
    if p.stopping {
      OccurrencesAppend(p.discarded, p.held[i], t);
    } else if |p.queue| < c.queueDepth {
      OccurrencesAppend(p.queue, p.held[i], t);
    } else {
      OccurrencesAppend(p.overflow, p.held[i], t);
    }
  }

  lemma AnswerPlaces(c: Config, e: State, i: nat, ending: Ending, t: Task)
    requires i < |e.pool.busy|
    ensures Places(AnswerTask(c, e, i, ending), t) == Places(e, t)
  {
    var e' := AnswerTask(c, e, i, ending);
    var x := e'.pool.outcomes[|e.pool.outcomes|];
    assert x.task == e.pool.busy[i] && e'.pool.outcomes == e.pool.outcomes + [x];
    OccurrencesWithout(e.pool.busy, i, t);
    CountIfAppend(e.pool.outcomes, x, IsOf(t));
  }

  lemma RecordPlaces(e: State, j: nat, attempts: int, t: Task)
    requires j < |e.pool.outcomes|
    ensures Places(RecordOutcome(e, j, attempts), t) == Places(e, t)
  {
    CountIfWithout(e.pool.outcomes, j, IsOf(t));
    ReportsAppend(e.rows, ReportOf(e.pool.outcomes[j], e.now, attempts), t);
  }

  lemma StepBatchesNonEmpty(c: Config, e: State, s: Step, i: nat)
    requires i < |Next(c, e, s).tasks|
    requires i < |e.tasks| ==> e.tasks[i].batch.matches != []
    ensures Next(c, e, s).tasks[i].batch.matches != []
  {
    StepExtends(c, e, s);
    if i >= |e.tasks| {
      match s
      case NotifyStep(n, o, hit) => VisitFrame(e, n, o, hit);
      case FlushDebounced(_) =>
      case Answer(_, _) =>
      case Record(_, _) =>
      case _ =>
    }
  }

  lemma {:induction false} ObjectConserved(c: Config, steps: seq<Step>, o: nat)
    requires o < |After(c, steps).objs|
    ensures Conserved(After(c, steps), o)
  {
    if steps != [] {
      var before, s := steps[..|steps| - 1], steps[|steps| - 1];
      if o < |After(c, before).objs| {
        ObjectConserved(c, before, o);
        StepConserves(c, After(c, before), s, o);
      } else {
        AlwaysWellFormed(c, before);
        NewObjectConserved(c, After(c, before), s, o);
      }
    }
  }

  lemma {:induction false} BatchNonEmpty(c: Config, steps: seq<Step>, i: nat)
    requires i < |After(c, steps).tasks|
    ensures After(c, steps).tasks[i].batch.matches != []
  {
    if steps != [] {
      var before, s := steps[..|steps| - 1], steps[|steps| - 1];
      if i < |After(c, before).tasks| {
        BatchNonEmpty(c, before, i);
      }
      StepBatchesNonEmpty(c, After(c, before), s, i);
    }
  }

  /**
   Match conservation and order, for every run and every compiled subscription: what was
   accepted is what was drained, in order, followed by what is still pending; and every
   drained task is non-empty.
   */
  lemma {:induction false} MatchesConserved(c: Config, steps: seq<Step>)
    ensures var e := After(c, steps);
      && (forall o :: 0 <= o < |e.objs| ==>
            e.objs[o].accepted == DrainedMatches(e.tasks, o) + e.objs[o].rt.pending)
      && (forall i :: 0 <= i < |e.tasks| ==> e.tasks[i].batch.matches != [])
  {
    var e := After(c, steps);
    forall o | 0 <= o < |e.objs|
      ensures e.objs[o].accepted == DrainedMatches(e.tasks, o) + e.objs[o].rt.pending
    {
      ObjectConserved(c, steps, o);
    }
    forall i | 0 <= i < |e.tasks| ensures e.tasks[i].batch.matches != [] { BatchNonEmpty(c, steps, i); }
  }

  lemma {:induction false} AlwaysPlaced(c: Config, steps: seq<Step>, t: Task)
    ensures Places(After(c, steps), t) == Occurrences(After(c, steps).tasks, t)
  {
    if steps != [] {
      AlwaysPlaced(c, steps[..|steps| - 1], t);
      StepPlaces(c, After(c, steps[..|steps| - 1]), steps[|steps| - 1], t);
    }
  }

  lemma {:induction false} NumberedOnce(tasks: seq<Task>, t: Task)
    requires forall i :: 0 <= i < |tasks| ==> tasks[i].no == i
    ensures Occurrences(tasks, t) == if t in tasks then 1 else 0
  {
    if tasks != [] {
      var n := |tasks| - 1;
      NumberedOnce(tasks[..n], t);
      assert tasks == tasks[..n] + [tasks[n]];
    }
  }

  /**
   Every drained task is in exactly one place and there exactly once: between its drain and
   its enqueue, queued, with a worker, ended and about to be reported, reported by one fire row, counted as dropped because the
   queue was full, or discarded because the pool had stopped. Nothing else is in any of them.
   */
  lemma {:induction false} TaskFateUnique(c: Config, steps: seq<Step>, t: Task)
    ensures var e := After(c, steps);
      Occurrences(e.pool.held, t) + Occurrences(e.pool.queue, t) + Occurrences(e.pool.busy, t)
      + CountIf(e.pool.outcomes, IsOf(t)) + Reports(e.rows, t)
      + Occurrences(e.pool.overflow, t) + Occurrences(e.pool.discarded, t) == if t in e.tasks then 1 else 0
  {
    var e := After(c, steps);
    AlwaysPlaced(c, steps, t);
    AlwaysWellFormed(c, steps);
    forall i | 0 <= i < |e.tasks| ensures e.tasks[i].no == i { assert TaskOk(e, i); }
    NumberedOnce(e.tasks, t);
  }
}
