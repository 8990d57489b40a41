/**
 What the daily cap can still become: from a state with a running pool, the successes of today can
 reach exactly today's successes so far plus everything in flight. So a window may open without
 endangering the cap if and only if that sum is below the cap; handleMatch compares only the
 successes (internal/webhook/manager.go).
 */
module EngineCap {
  import opened Base
  import opened Engine
  import opened EngineTiming
  import opened EngineBudget

  /** Workers are up, the pool is not stopping, and its queue has a slot at all. */
  predicate PoolRuns(c: Config, p: Pool) {
    p.started && !p.stopping && p.idle + |p.busy| + |p.outcomes| >= 1 && c.queueDepth >= 1
  }

  /** The window of object o, if it is open and of sub, is flushed once the clock is at t. */
  predicate FlushedBy(e: State, o: nat, sub: Id, t: int)
    requires o < |e.objs|
  {
    var x := e.objs[o];
    OpenWindow(x, sub) == 1 ==> x.rt.timer.Fired? || (x.rt.timer.Armed? && x.rt.timer.due <= t)
  }

  ghost predicate AllFlushedBy(e: State, sub: Id, t: int) {
    forall o :: 0 <= o < |e.objs| ==> FlushedBy(e, o, sub, t)
  }

  function DayEnd(t: int): int { DayStart(t) + DAY - 1 }

  /** The pool runs and no open window of sub waits beyond today. Without debounce none is ever open. */
  ghost predicate CanFinishToday(c: Config, e: State, sub: Id) {
    PoolRuns(c, e.pool) && AllFlushedBy(e, sub, DayEnd(e.now))
  }

  /** Steps that bring nothing new: the clock, timers, flushes, the pool and its deliveries. */
  predicate Calm(s: Step) {
    s.Tick? || s.TimerFires? || s.FlushDebounced? || s.PoolStep? || s.Answer? || s.Record?
  }

  ghost predicate AllCalm(steps: seq<Step>) {
    forall k :: 0 <= k < |steps| ==> Calm(steps[k])
  }

  /** Calm continuations of one another make one. */
  lemma CalmJoin(c: Config, steps: seq<Step>, a: seq<Step>, b: seq<Step>)
    requires AllCalm(a) && AllCalm(b)
    ensures AllCalm(a + b) && After(c, steps + (a + b)) == After(c, (steps + a) + b)
  {
    assert steps + (a + b) == (steps + a) + b;
  }

  // The pool empties

  function Size(p: Pool): nat {
    4 * |p.held| + 3 * |p.queue| + 2 * |p.busy| + |p.outcomes|
  }

  /** Record an outcome, else deliver what a worker has, else give a worker the next task, else enqueue a held one. */
  function Onward(p: Pool): Step {
    if p.outcomes != [] then Record(0, 1)
    else if p.busy != [] then Answer(0, Delivered)
    else if p.queue != [] then PoolStep(Take)
    else PoolStep(Enqueue(0))
  }

  /** The state goes on within the same instant with nothing lost from the account. */
  ghost predicate SameAccount(e: State, e': State, sub: Id) {
    e'.now == e.now && Committed(e', sub) == Committed(e, sub)
  }

  lemma TakeOn(c: Config, e: State, sub: Id)
    requires PoolRuns(c, e.pool) && e.pool.queue != [] && e.pool.idle > 0
    ensures var e' := Next(c, e, PoolStep(Take));
      PoolRuns(c, e'.pool) && Size(e'.pool) < Size(e.pool) && SameAccount(e, e', sub) && e'.objs == e.objs
  {
    OfSubHead(e.pool.queue, sub);
    OfSubAppend(e.pool.busy, e.pool.queue[0], sub);
  }

  lemma EnqueueOn(c: Config, e: State, sub: Id)
    requires PoolRuns(c, e.pool) && e.pool.held != [] && e.pool.queue == []
    ensures var e' := Next(c, e, PoolStep(Enqueue(0)));
      PoolRuns(c, e'.pool) && Size(e'.pool) < Size(e.pool) && SameAccount(e, e', sub) && e'.objs == e.objs
  {
    OfSubWithout(e.pool.held, 0, sub);
    OfSubAppend(e.pool.queue, e.pool.held[0], sub);
  }

  lemma MoveOn(c: Config, e: State, sub: Id)
    requires PoolRuns(c, e.pool) && Size(e.pool) > 0 && e.pool.busy == [] && e.pool.outcomes == []
    ensures var e' := Next(c, e, Onward(e.pool));
      PoolRuns(c, e'.pool) && Size(e'.pool) < Size(e.pool) && SameAccount(e, e', sub) && e'.objs == e.objs
  {
    if e.pool.queue != [] { TakeOn(c, e, sub); } else { EnqueueOn(c, e, sub); }
  }

  lemma DeliverOn(c: Config, e: State, sub: Id)
    requires PoolRuns(c, e.pool) && e.pool.busy != []
    ensures var e' := Next(c, e, Answer(0, Delivered));
      && PoolRuns(c, e'.pool) && Size(e'.pool) < Size(e.pool) && SameAccount(e, e', sub)
      && Windows(e'.objs, sub) == Windows(e.objs, sub)
  {
    AnswerCommitted(c, e, 0, Delivered, sub);
  }

  lemma RecordOn(c: Config, e: State, sub: Id)
    requires PoolRuns(c, e.pool) && e.pool.outcomes != []
    ensures var e' := Next(c, e, Record(0, 1));
      && PoolRuns(c, e'.pool) && Size(e'.pool) < Size(e.pool) && SameAccount(e, e', sub)
      && e'.objs == e.objs
  {
    RecordCommitted(e, 0, 1, sub, DayOf(e.now));
  }

  lemma EmptyLoad(p: Pool, sub: Id)
    requires Size(p) == 0
    ensures PoolLoad(p, sub) == 0
  {
  }

  /** With no window open, every fire in the pool can be delivered, at this very instant. */
  lemma {:induction false} PoolEmpties(c: Config, steps: seq<Step>, sub: Id) returns (rest: seq<Step>)
    requires PoolRuns(c, After(c, steps).pool) && Windows(After(c, steps).objs, sub) == 0
    ensures AllCalm(rest)
    ensures var e, e' := After(c, steps), After(c, steps + rest);
      e'.now == e.now && OkOnDay(e'.rows, sub, DayOf(e.now)) == Committed(e, sub)
    decreases Size(After(c, steps).pool)
  {
    var e := After(c, steps);
    if Size(e.pool) == 0 {
      EmptyLoad(e.pool, sub);
      rest := [];
      assert steps + rest == steps;
    } else {
      var s := Onward(e.pool);
      if e.pool.outcomes != [] {
        RecordOn(c, e, sub);
      } else if e.pool.busy != [] {
        DeliverOn(c, e, sub);
      } else {
        MoveOn(c, e, sub);
      }
      AfterSnoc(c, steps, s);
      var more := PoolEmpties(c, steps + [s], sub);
      rest := [s] + more;
      CalmJoin(c, steps, [s], more);
    }
  }

  // Windows close

  lemma {:induction false} WindowToClose(objs: seq<Live>, sub: Id) returns (o: nat)
    requires Windows(objs, sub) > 0
    ensures o < |objs| && OpenWindow(objs[o], sub) == 1
  {
    o := |objs| - 1;
    if OpenWindow(objs[o], sub) == 0 { o := WindowToClose(objs[..o], sub); }
  }

  /** The timer of an open window fires, unless it has. */
  lemma FireTimer(c: Config, steps: seq<Step>, sub: Id, o: nat) returns (rest: seq<Step>)
    requires var e := After(c, steps);
      o < |e.objs| && AllFlushedBy(e, sub, e.now) && OpenWindow(e.objs[o], sub) == 1
    ensures AllCalm(rest)
    ensures var e, e' := After(c, steps), After(c, steps + rest);
      && SameAccount(e, e', sub) && e'.pool == e.pool && |e'.objs| == |e.objs| && AllFlushedBy(e', sub, e'.now)
      && e'.objs[o].rt.timer.Fired? && OpenWindow(e'.objs[o], sub) == 1
      && Windows(e'.objs, sub) == Windows(e.objs, sub)
  {
    var e := After(c, steps);
    assert FlushedBy(e, o, sub, e.now);
    if e.objs[o].rt.timer.Fired? {
      rest := [];
      assert steps + rest == steps;
    } else {
      rest := [TimerFires(o)];
      AfterSnoc(c, steps, TimerFires(o));
      var e' := After(c, steps + rest);
      WindowsUpdate(e.objs, o, e'.objs[o], sub);
      forall p | 0 <= p < |e'.objs| ensures FlushedBy(e', p, sub, e'.now) { assert FlushedBy(e, p, sub, e.now); }
    }
  }

  lemma Flush(c: Config, steps: seq<Step>, sub: Id, o: nat)
    requires var e := After(c, steps);
      && o < |e.objs| && AllFlushedBy(e, sub, e.now)
      && e.objs[o].rt.timer.Fired? && OpenWindow(e.objs[o], sub) == 1
    ensures var e, e' := After(c, steps), After(c, steps + [FlushDebounced(o)]);
      && SameAccount(e, e', sub) && e'.pool == e.pool.(held := e'.pool.held) && AllFlushedBy(e', sub, e'.now)
      && Windows(e'.objs, sub) == Windows(e.objs, sub) - 1
  {
    var e := After(c, steps);
    AfterSnoc(c, steps, FlushDebounced(o));
    FlushInFlight(e, o, sub);
    var e' := After(c, steps + [FlushDebounced(o)]);
    WindowsUpdate(e.objs, o, e'.objs[o], sub);
    forall p | 0 <= p < |e'.objs| ensures FlushedBy(e', p, sub, e'.now) { assert FlushedBy(e, p, sub, e.now); }
  }

  lemma {:induction false} WindowsClose(c: Config, steps: seq<Step>, sub: Id) returns (rest: seq<Step>)
    requires PoolRuns(c, After(c, steps).pool) && AllFlushedBy(After(c, steps), sub, After(c, steps).now)
    ensures AllCalm(rest)
    ensures var e, e' := After(c, steps), After(c, steps + rest);
      SameAccount(e, e', sub) && PoolRuns(c, e'.pool) && Windows(e'.objs, sub) == 0
    decreases Windows(After(c, steps).objs, sub)
  {
    var e := After(c, steps);
    if Windows(e.objs, sub) == 0 {
      rest := [];
      assert steps + rest == steps;
    } else {
      var o := WindowToClose(e.objs, sub);
      var fire := FireTimer(c, steps, sub, o);
      Flush(c, steps + fire, sub, o);
      var first := fire + [FlushDebounced(o)];
      CalmJoin(c, steps, fire, [FlushDebounced(o)]);
      var more := WindowsClose(c, steps + first, sub);
      rest := first + more;
      CalmJoin(c, steps, first, more);
    }
  }

  // Main results

  lemma DayEndSameDay(t: int)
    ensures t <= DayEnd(t) && DayOf(DayEnd(t)) == DayOf(t)
  {
  }

  /** Whatever is in flight can still succeed today: a continuation in which nothing new is accepted. */
  lemma AllCommittedCanSucceed(c: Config, steps: seq<Step>, sub: Id) returns (rest: seq<Step>)
    requires CanFinishToday(c, After(c, steps), sub)
    ensures AllCalm(rest)
    ensures var e := After(c, steps); OkOnDay(After(c, steps + rest).rows, sub, DayOf(e.now)) == Committed(e, sub)
  {
    var e := After(c, steps);
    DayEndSameDay(e.now);
    var wait := Tick(DayEnd(e.now));
    AfterSnoc(c, steps, wait);
    var e1 := After(c, steps + [wait]);
    assert e1 == e.(now := DayEnd(e.now));
    forall o | 0 <= o < |e1.objs| ensures FlushedBy(e1, o, sub, e1.now) { assert FlushedBy(e, o, sub, DayEnd(e.now)); }
    var close := WindowsClose(c, steps + [wait], sub);
    var finish := PoolEmpties(c, steps + [wait] + close, sub);
    CalmJoin(c, steps, [wait], close);
    CalmJoin(c, steps, [wait] + close, finish);
    rest := [wait] + close + finish;
    assert steps + ([wait] + close) == steps + [wait] + close;
  }

  /** No step of rest, taken after before, opens a window of sub. */
  ghost predicate NoneOpens(c: Config, before: seq<Step>, rest: seq<Step>, sub: Id) {
    rest != [] ==>
      var most := rest[..|rest| - 1];
      NoneOpens(c, before, most, sub) && !OpensFor(c, After(c, before + most), rest[|rest| - 1], sub)
  }

  lemma {:induction false} CalmOpensNone(c: Config, before: seq<Step>, rest: seq<Step>, sub: Id)
    requires AllCalm(rest)
    ensures NoneOpens(c, before, rest, sub)
  {
    if rest != [] { CalmOpensNone(c, before, rest[..|rest| - 1], sub); }
  }

  /** Without another opening, no continuation brings today more successes than that. */
  lemma {:induction false} NoMoreCanSucceed(c: Config, before: seq<Step>, rest: seq<Step>, sub: Id)
    requires NoneOpens(c, before, rest, sub)
    ensures var e, e' := After(c, before), After(c, before + rest);
      InFlight(e', sub) + OkOnDay(e'.rows, sub, DayOf(e.now)) <= Committed(e, sub)
  {
    if rest == [] {
      assert before + rest == before;
    } else {
      var most, s := rest[..|rest| - 1], rest[|rest| - 1];
      NoMoreCanSucceed(c, before, most, sub);
      assert before + rest == before + most + [s];
      AfterSnoc(c, before + most, s);
      var e := After(c, before + most);
      if s.NotifyStep? && s.o < |e.objs| { AlwaysTimed(c, before + most, s.o); }
      StepAccount(c, e, s, sub, DayOf(After(c, before).now));
    }
  }

  /** However the run goes on without another opening, the day has at most m successes. */
  ghost predicate CapSafe(c: Config, steps: seq<Step>, sub: Id, m: int) {
    forall rest :: NoneOpens(c, steps, rest, sub) ==>
      OkOnDay(After(c, steps + rest).rows, sub, DayOf(After(c, steps).now)) <= m
  }

  lemma CapSafeIff(c: Config, steps: seq<Step>, sub: Id, m: int)
    requires CanFinishToday(c, After(c, steps), sub)
    ensures CapSafe(c, steps, sub, m) <==> Committed(After(c, steps), sub) <= m
  {
    var rest := AllCommittedCanSucceed(c, steps, sub);
    CalmOpensNone(c, steps, rest, sub);
    forall more | NoneOpens(c, steps, more, sub)
      ensures OkOnDay(After(c, steps + more).rows, sub, DayOf(After(c, steps).now)) <= Committed(After(c, steps), sub)
    {
      NoMoreCanSucceed(c, steps, more, sub);
    }
  }

  /**
   Exactly when an acceptance endangers a cap of m: after it opens a window, the day's successes stay
   within m in every continuation that opens no other, if and only if today's successes and the
   fires in flight together were below m before it.
   */
  lemma OpeningKeepsCapIff(c: Config, steps: seq<Step>, s: Step, sub: Id, m: int)
    requires OpensFor(c, After(c, steps), s, sub)
    requires CanFinishToday(c, After(c, steps + [s]), sub)
    ensures CapSafe(c, steps + [s], sub, m) <==> Committed(After(c, steps), sub) < m
  {
    var e := After(c, steps);
    AfterSnoc(c, steps, s);
    AlwaysTimed(c, steps, s.o);
    ClockMoves(c, e, s);
    StepAccount(c, e, s, sub, DayOf(e.now));
    CapSafeIff(c, steps + [s], sub, m);
  }

  /** A subscription without debounce never has an open window, so a running pool is enough. */
  lemma NoDebounceNoWindows(c: Config, steps: seq<Step>, sub: Id)
    requires var e := After(c, steps);
      PoolRuns(c, e.pool) && forall o :: 0 <= o < |e.objs| && e.objs[o].rules.id == sub ==> Millis(e.objs[o].rules.debounceMs) <= 0
    ensures CanFinishToday(c, After(c, steps), sub)
  {
    var e := After(c, steps);
    forall o | 0 <= o < |e.objs| ensures FlushedBy(e, o, sub, DayEnd(e.now)) {
      AlwaysTimed(c, steps, o);
    }
  }
}
