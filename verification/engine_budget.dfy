/**
 The daily budget over whole runs (internal/webhook/manager.go, handleMatch's count query;
 internal/storage/sqlite/sqlite.go, CountSubscriptionFiresSince).

 The query counts rows already written, so fires still in flight escape it. The theorems say
 by how much the cap can be exceeded, and when it cannot.
 */
module EngineBudget {
  import opened Base
  import opened Subscription
  import opened Engine
  import opened EngineTiming

  /** Successful fires of a subscription stamped on UTC day d. */
  function OkOnDay(rows: seq<Row>, sub: Id, d: int): nat {
    if rows == [] then 0
    else
      var r := rows[|rows| - 1];
      OkOnDay(rows[..|rows| - 1], sub, d)
      + if r.sub == sub && r.status == StatusOk && DayOf(r.at) == d then 1 else 0
  }

  /** Compiled objects of a subscription that have an open window. */
  function Windows(objs: seq<Live>, sub: Id): nat {
    if objs == [] then 0
    else Windows(objs[..|objs| - 1], sub) + OpenWindow(objs[|objs| - 1], sub)
  }

  function OpenWindow(x: Live, sub: Id): nat {
    if x.rules.id == sub && x.rt.pending != [] then 1 else 0
  }

  /** How many objects were compiled for a subscription. */
  function Versions(objs: seq<Live>, sub: Id): nat {
    if objs == [] then 0
    else Versions(objs[..|objs| - 1], sub) + if objs[|objs| - 1].rules.id == sub then 1 else 0
  }

  function OfSub(ts: seq<Task>, sub: Id): nat {
    if ts == [] then 0
    else OfSub(ts[..|ts| - 1], sub) + if ts[|ts| - 1].sub == sub then 1 else 0
  }

  /** A success whose row is still to be written. */
  function SuccessOf(sub: Id): Outcome -> bool {
    (x: Outcome) => x.task.sub == sub && x.ending == Delivered
  }

  function PoolLoad(p: Pool, sub: Id): nat {
    OfSub(p.held, sub) + OfSub(p.queue, sub) + OfSub(p.busy, sub) + CountIf(p.outcomes, SuccessOf(sub))
  }

  /** Fires that may still become a success row: open windows, held, queued and delivering tasks, unrecorded successes. */
  function InFlight(e: State, sub: Id): nat {
    Windows(e.objs, sub) + PoolLoad(e.pool, sub)
  }

  /** Today's successes together with everything that may still become one. */
  function Committed(e: State, sub: Id): nat {
    OkOnDay(e.rows, sub, DayOf(e.now)) + InFlight(e, sub)
  }

  /** Every version of the subscription has a cap, of at most m. */
  ghost predicate Capped(e: State, sub: Id, m: int) {
    forall o :: 0 <= o < |e.objs| && e.objs[o].rules.id == sub ==> 1 <= e.objs[o].rules.dailyMax <= m
  }

  /** The step is a visit that opens a window for sub, or drains at once when it has no debounce. */
  predicate OpensFor(c: Config, e: State, s: Step, sub: Id) {
    && s.NotifyStep? && Enabled(c, e, s) && s.hit
    && e.objs[s.o].rules.id == sub
    && e.objs[s.o].rules.account !in e.notes[s.n].paused
    && VerdictOf(e, s.o).Opens()
  }

  /** Whenever a window of sub opened, at most b of its fires were in flight. */
  ghost predicate OpenedWithin(c: Config, steps: seq<Step>, sub: Id, b: nat) {
    steps != [] ==>
      var before, s := steps[..|steps| - 1], steps[|steps| - 1];
      OpenedWithin(c, before, sub, b)
      && (OpensFor(c, After(c, before), s, sub) ==> InFlight(After(c, before), sub) <= b)
  }

  /** Whenever a window of sub opened, at most h drained tasks still waited for their enqueue call. */
  ghost predicate HeldWithin(c: Config, steps: seq<Step>, sub: Id, h: nat) {
    steps != [] ==>
      var before, s := steps[..|steps| - 1], steps[|steps| - 1];
      HeldWithin(c, before, sub, h)
      && (OpensFor(c, After(c, before), s, sub) ==> |After(c, before).pool.held| <= h)
  }

  // Counting lemmas

  lemma {:induction false} WindowsUpdate(objs: seq<Live>, o: nat, x: Live, sub: Id)
    requires o < |objs|
    ensures Windows(objs[o := x], sub) == Windows(objs, sub) - OpenWindow(objs[o], sub) + OpenWindow(x, sub)
  {
    var n := |objs| - 1;
    if o < n {
      WindowsUpdate(objs[..n], o, x, sub);
      assert objs[o := x][..n] == objs[..n][o := x];
    } else {
      assert objs[o := x][..n] == objs[..n];
    }
  }

  /** Objects that a quiet step leaves or adds open no window and close none. */
  lemma {:induction false} WindowsQuiet(objs: seq<Live>, objs': seq<Live>, sub: Id)
    requires |objs| <= |objs'|
    requires forall o :: 0 <= o < |objs| ==> Quiet(objs[o], objs'[o])
    requires forall o :: |objs| <= o < |objs'| ==> objs'[o].rt.pending == []
    ensures Windows(objs', sub) == Windows(objs, sub)
  {
    if objs' != [] {
      var n := |objs'| - 1;
      if |objs| == |objs'| {
        assert Quiet(objs[n], objs'[n]);
        WindowsQuiet(objs[..n], objs'[..n], sub);
      } else {
        WindowsQuiet(objs, objs'[..n], sub);
      }
    }
  }

  lemma OfSubAppend(ts: seq<Task>, t: Task, sub: Id)
    ensures OfSub(ts + [t], sub) == OfSub(ts, sub) + if t.sub == sub then 1 else 0
  {
    assert (ts + [t])[..|ts|] == ts;
  }

  lemma {:induction false} OfSubWithout(ts: seq<Task>, i: nat, sub: Id)
    requires i < |ts|
    ensures OfSub(ts, sub) == OfSub(Without(ts, i), sub) + if ts[i].sub == sub then 1 else 0
  {
    var n := |ts| - 1;
    if i < n {
      OfSubWithout(ts[..n], i, sub);
      OfSubAppend(Without(ts[..n], i), ts[n], sub);
    }
  }

  lemma {:induction false} OfSubHead(ts: seq<Task>, sub: Id)
    requires ts != []
    ensures OfSub(ts, sub) == OfSub(ts[1..], sub) + if ts[0].sub == sub then 1 else 0
  {
    var n := |ts| - 1;
    if n > 0 {
      OfSubHead(ts[..n], sub);
      assert ts[1..][..n - 1] == ts[..n][1..];
    }
  }

  lemma OfSubAtMost(ts: seq<Task>, sub: Id)
    ensures OfSub(ts, sub) <= |ts|
  {
  }

  lemma OkAppend(rows: seq<Row>, r: Row, sub: Id, d: int)
    ensures OkOnDay(rows + [r], sub, d)
         == OkOnDay(rows, sub, d) + if r.sub == sub && r.status == StatusOk && DayOf(r.at) == d then 1 else 0
  {
    assert (rows + [r])[..|rows|] == rows;
  }

  /** No row is stamped in the future. */
  ghost predicate StampedBy(rows: seq<Row>, now: int) {
    forall i :: 0 <= i < |rows| ==> rows[i].at <= now
  }

  /** The count query answers today's successes, because no row is stamped in the future. */
  lemma {:induction false} QueryCountsToday(rows: seq<Row>, sub: Id, now: int)
    requires StampedBy(rows, now)
    ensures OkSince(rows, sub, DayStart(now)) == OkOnDay(rows, sub, now / 86_400_000_000_000)
  {
    if rows != [] {
      var r := rows[|rows| - 1];
      QueryCountsToday(rows[..|rows| - 1], sub, now);
      assert r.at >= DayStart(now) <==> DayOf(r.at) == DayOf(now);
    }
  }

  lemma {:induction false} NothingTomorrow(rows: seq<Row>, sub: Id, now: int, d: int)
    requires StampedBy(rows, now)
    requires d > DayOf(now)
    ensures OkOnDay(rows, sub, d) == 0
  {
    if rows != [] {
      NothingTomorrow(rows[..|rows| - 1], sub, now, d);
    }
  }

  /** Windows never outnumber versions, and an object without one leaves room. */
  lemma {:induction false} WindowsAtMostVersions(objs: seq<Live>, sub: Id)
    ensures Windows(objs, sub) <= Versions(objs, sub)
    ensures forall o :: 0 <= o < |objs| && objs[o].rules.id == sub && objs[o].rt.pending == [] ==>
              Windows(objs, sub) < Versions(objs, sub)
  {
    if objs != [] {
      WindowsAtMostVersions(objs[..|objs| - 1], sub);
    }
  }

  // What one step does to the commitments

  lemma MoveLoad(c: Config, p: Pool, m: PoolMove, sub: Id)
    requires CanMove(p, m)
    ensures PoolLoad(Move(c, p, m), sub) <= PoolLoad(p, sub)
  {
    match m
    case Enqueue(i) =>
      OfSubWithout(p.held, i, sub);
      OfSubAppend(p.queue, p.held[i], sub);
    case Take =>
      OfSubHead(p.queue, sub);
      OfSubAppend(p.busy, p.queue[0], sub);
    case _ =>
  }

  /** An answer keeps what it succeeds in in flight, and ends the rest. */
  lemma AnswerCommitted(c: Config, e: State, i: nat, ending: Ending, sub: Id)
    requires i < |e.pool.busy|
    ensures var e' := AnswerTask(c, e, i, ending);
      && InFlight(e', sub) == InFlight(e, sub) - (if e.pool.busy[i].sub == sub && ending != Delivered then 1 else 0)
      && Windows(e'.objs, sub) == Windows(e.objs, sub)
      && e'.rows == e.rows && e'.now == e.now
  {
    var t, e' := e.pool.busy[i], AnswerTask(c, e, i, ending);
    var x := e'.pool.outcomes[|e.pool.outcomes|];
    assert e'.pool.outcomes == e.pool.outcomes + [x];
    OfSubWithout(e.pool.busy, i, sub);
    CountIfAppend(e.pool.outcomes, x, SuccessOf(sub));
    if t.obj < |e.objs| {
      WindowsUpdate(e.objs, t.obj, Conclude(c, e.objs[t.obj], ending), sub);
    }
  }

  /** Writing its row moves a success from in flight to today's. */
  lemma RecordCommitted(e: State, j: nat, attempts: int, sub: Id, d: int)
    requires j < |e.pool.outcomes|
    ensures var e' := RecordOutcome(e, j, attempts);
      && InFlight(e', sub) == InFlight(e, sub) - (if SuccessOf(sub)(e.pool.outcomes[j]) then 1 else 0)
      && OkOnDay(e'.rows, sub, d) == OkOnDay(e.rows, sub, d)
           + (if SuccessOf(sub)(e.pool.outcomes[j]) && DayOf(e.now) == d then 1 else 0)
  {
    CountIfWithout(e.pool.outcomes, j, SuccessOf(sub));
    OkAppend(e.rows, ReportOf(e.pool.outcomes[j], e.now, attempts), sub, d);
  }

  lemma FlushInFlight(e: State, o: nat, sub: Id)
    requires o < |e.objs|
    ensures var e' := FlushObj(e, o); InFlight(e', sub) == InFlight(e, sub) && e'.rows == e.rows && e'.now == e.now
  {
    var x := e.objs[o];
    WindowsUpdate(e.objs, o, x.(rt := DrainState(x.rt.(timer := NoTimer), e.now)), sub);
    if x.rt.pending != [] {
      OfSubAppend(e.pool.held, FlushObj(e, o).tasks[|e.tasks|], sub);
    }
  }

  lemma AcceptInFlight(e: State, o: nat, ev: Event<Entry>, sub: Id)
    requires o < |e.objs| && Timed(e, o)
    ensures InFlight(Accept(e, o, ev), sub)
         == InFlight(e, sub) + if e.objs[o].rules.id == sub && VerdictOf(e, o).Opens() then 1 else 0
  {
    var x := e.objs[o];
    var v := VerdictOf(e, o);
    if v.Accepts() {
      var e' := Accept(e, o, ev);
      WindowsUpdate(e.objs, o, e'.objs[o], sub);
      if v == Drained {
        OfSubAppend(e.pool.held, e'.tasks[|e.tasks|], sub);
      }
    }
  }

  lemma VisitInFlight(c: Config, e: State, s: Step, sub: Id)
    requires s.NotifyStep? && Enabled(c, e, s) && Timed(e, s.o)
    ensures var e' := Next(c, e, s);
      && InFlight(e', sub) == InFlight(e, sub) + (if OpensFor(c, e, s, sub) then 1 else 0)
      && e'.now == e.now
      && forall d :: OkOnDay(e'.rows, sub, d) == OkOnDay(e.rows, sub, d)
  {
    var e' := Next(c, e, s);
    var e1 := e.(notes := e.notes[s.n := e.notes[s.n].(todo := e.notes[s.n].todo - {s.o})]);
    assert VerdictOf(e1, s.o) == VerdictOf(e, s.o) && InFlight(e1, sub) == InFlight(e, sub);
    AcceptInFlight(e1, s.o, e.notes[s.n].ev, sub);
    VisitFrame(e, s.n, s.o, s.hit);
    forall d ensures OkOnDay(e'.rows, sub, d) == OkOnDay(e.rows, sub, d) {
      if |e'.rows| > |e.rows| { OkAppend(e.rows, e'.rows[|e.rows|], sub, d); }
    }
  }

  /**
   What a step does to the account of one subscription: only opening a window adds to what is
   in flight, by one; a success moves one fire from in flight to today's successes; and no
   step adds a success to another day.
   */
  lemma StepAccount(c: Config, e: State, s: Step, sub: Id, d: int)
    requires s.NotifyStep? && s.o < |e.objs| ==> Timed(e, s.o)
    ensures var e' := Next(c, e, s);
      && InFlight(e', sub) <= InFlight(e, sub) + (if OpensFor(c, e, s, sub) then 1 else 0)
      && (OpensFor(c, e, s, sub) ==> InFlight(e', sub) == InFlight(e, sub) + 1)
      && OkOnDay(e.rows, sub, d) <= OkOnDay(e'.rows, sub, d)
      && (d != DayOf(e.now) ==> OkOnDay(e'.rows, sub, d) == OkOnDay(e.rows, sub, d))
      && InFlight(e', sub) + OkOnDay(e'.rows, sub, d)
         <= InFlight(e, sub) + OkOnDay(e.rows, sub, d) + (if OpensFor(c, e, s, sub) then 1 else 0)
      && (OpensFor(c, e, s, sub) ==> OkOnDay(e'.rows, sub, d) == OkOnDay(e.rows, sub, d))
  {
    if Enabled(c, e, s) {
      match s
      case NotifyStep(n, o, hit) => VisitInFlight(c, e, s, sub);
      case FlushDebounced(o) => FlushInFlight(e, o, sub);
      case Answer(i, ending) => AnswerCommitted(c, e, i, ending, sub);
      case Record(j, attempts) => RecordCommitted(e, j, attempts, sub, d);
      case PoolStep(m) => MoveLoad(c, e.pool, m, sub);
      case _ =>
        StepQuiet(c, e, s);
        WindowsQuiet(e.objs, Next(c, e, s).objs, sub);
        assert Next(c, e, s).pool == e.pool && Next(c, e, s).rows == e.rows;
    }
  }

  lemma StepRowsPast(c: Config, e: State, s: Step)
    requires StampedBy(e.rows, e.now)
    ensures StampedBy(Next(c, e, s).rows, Next(c, e, s).now)
  {
    StepExtends(c, e, s);
    if Enabled(c, e, s) {
      match s
      case NotifyStep(n, o, hit) =>
      case FlushDebounced(o) =>
      case Answer(_, _) => assert Next(c, e, s).rows == e.rows;
      case Record(_, _) =>
      case _ => assert Next(c, e, s).rows == e.rows;
    }
  }

  lemma {:induction false} RowsInThePast(c: Config, steps: seq<Step>)
    ensures StampedBy(After(c, steps).rows, After(c, steps).now)
  {
    if steps != [] {
      RowsInThePast(c, steps[..|steps| - 1]);
      StepRowsPast(c, After(c, steps[..|steps| - 1]), steps[|steps| - 1]);
    }
  }

  /** A window opens only while today's successes are below the cap. */
  lemma OpensBelowCap(c: Config, steps: seq<Step>, s: Step, sub: Id, m: int)
    requires OpensFor(c, After(c, steps), s, sub) && Capped(After(c, steps), sub, m)
    ensures var e := After(c, steps); OkOnDay(e.rows, sub, DayOf(e.now)) < m
  {
    var e := After(c, steps);
    RowsInThePast(c, steps);
    QueryCountsToday(e.rows, sub, e.now);
    assert e.objs[s.o].rules.dailyMax <= m;
  }

  lemma CappedBefore(c: Config, e: State, s: Step, sub: Id, m: int)
    requires Capped(Next(c, e, s), sub, m)
    ensures Capped(e, sub, m)
  {
    StepExtends(c, e, s);
    forall o | 0 <= o < |e.objs| && e.objs[o].rules.id == sub ensures 1 <= e.objs[o].rules.dailyMax <= m {
      assert Next(c, e, s).objs[o].rules == e.objs[o].rules;
    }
  }

  /**
   The overshoot is what was in flight when windows opened: if that never exceeded b, then at
   every moment today's successes and everything in flight stay within the cap plus b, and so do
   the successes of every single UTC day, across day rollovers.
   */
  lemma {:induction false} CommittedWithin(c: Config, steps: seq<Step>, sub: Id, m: nat, b: nat, d: int)
    requires Capped(After(c, steps), sub, m) && OpenedWithin(c, steps, sub, b)
    ensures Committed(After(c, steps), sub) <= m + b
    ensures OkOnDay(After(c, steps).rows, sub, d) <= m + b
  {
    if steps != [] {
      var before, s := steps[..|steps| - 1], steps[|steps| - 1];
      var e, e' := After(c, before), After(c, steps);
      CappedBefore(c, e, s, sub, m);
      CommittedWithin(c, before, sub, m, b, d);
      if s.NotifyStep? && s.o < |e.objs| {
        AlwaysTimed(c, before, s.o);
      }
      ClockMoves(c, e, s);
      StepAccount(c, e, s, sub, d);
      StepAccount(c, e, s, sub, DayOf(e.now));
      StepAccount(c, e, s, sub, DayOf(e'.now));
      if OpensFor(c, e, s, sub) {
        OpensBelowCap(c, before, s, sub, m);
      }
      RowsInThePast(c, before);
      if DayOf(e'.now) > DayOf(e.now) {
        NothingTomorrow(e.rows, sub, e.now, DayOf(e'.now));
      }
    }
  }

  lemma {:induction false} HeldBoundsInFlight(c: Config, steps: seq<Step>, sub: Id, h: nat, k: nat)
    requires HeldWithin(c, steps, sub, h) && Versions(After(c, steps).objs, sub) <= k
    ensures OpenedWithin(c, steps, sub, c.queueDepth + c.workers + h + if k == 0 then 0 else k - 1)
  {
    if steps != [] {
      var before, s := steps[..|steps| - 1], steps[|steps| - 1];
      var e := After(c, before);
      VersionsGrow(c, e, s, sub);
      HeldBoundsInFlight(c, before, sub, h, k);
      if OpensFor(c, e, s, sub) {
        AlwaysWellFormed(c, before);
        AlwaysTimed(c, before, s.o);
        WindowsAtMostVersions(e.objs, sub);
        OfSubAtMost(e.pool.held, sub);
        OfSubAtMost(e.pool.queue, sub);
        OfSubAtMost(e.pool.busy, sub);
        CountIfAtMost(e.pool.outcomes, SuccessOf(sub));
      }
    }
  }

  lemma {:induction false} VersionsSameRules(objs: seq<Live>, objs': seq<Live>, sub: Id)
    requires |objs| <= |objs'|
    requires forall o :: 0 <= o < |objs| ==> objs'[o].rules == objs[o].rules
    ensures Versions(objs, sub) <= Versions(objs', sub)
  {
    if objs' != [] {
      var n := |objs'| - 1;
      if |objs| == |objs'| {
        VersionsSameRules(objs[..n], objs'[..n], sub);
      } else {
        VersionsSameRules(objs, objs'[..n], sub);
      }
    }
  }

  lemma VersionsGrow(c: Config, e: State, s: Step, sub: Id)
    ensures Versions(e.objs, sub) <= Versions(Next(c, e, s).objs, sub)
  {
    StepExtends(c, e, s);
    VersionsSameRules(e.objs, Next(c, e, s).objs, sub);
  }

  /**
   Budget overshoot bound: for a subscription compiled k times with caps of at most m, when at
   most h drained tasks wait for their enqueue call at the moments its windows open, today's
   successes plus all fires in flight never exceed m + queue depth + workers + h + k - 1, and
   neither do the successes of any UTC day. With one version and an enqueue that directly
   follows each drain (k = 1, h = 0) this is the cap plus the pool's capacity.
   */
  lemma {:induction false} DailyOvershootBound(c: Config, steps: seq<Step>, sub: Id, m: nat, h: nat, k: nat, d: int)
    requires Capped(After(c, steps), sub, m) && HeldWithin(c, steps, sub, h)
    requires 1 <= k && Versions(After(c, steps).objs, sub) <= k
    ensures Committed(After(c, steps), sub) <= m + c.queueDepth + c.workers + h + k - 1
    ensures OkOnDay(After(c, steps).rows, sub, d) <= m + c.queueDepth + c.workers + h + k - 1
  {
    HeldBoundsInFlight(c, steps, sub, h, k);
    CommittedWithin(c, steps, sub, m, c.queueDepth + c.workers + h + k - 1, d);
  }

  /** Whenever a window of sub opened, today's successes and fires in flight were below m. */
  ghost predicate OpenedBelow(c: Config, steps: seq<Step>, sub: Id, m: int) {
    steps != [] ==>
      var before, s := steps[..|steps| - 1], steps[|steps| - 1];
      OpenedBelow(c, before, sub, m)
      && (OpensFor(c, After(c, before), s, sub) ==> Committed(After(c, before), sub) < m)
  }

  /**
   The guard that would make the daily cap hard: if windows open only while today's successes and
   the fires in flight together are below m, no UTC day ever has more than m successes.
   */
  lemma {:induction false} CapHoldsBelow(c: Config, steps: seq<Step>, sub: Id, m: nat, d: int)
    requires OpenedBelow(c, steps, sub, m)
    ensures Committed(After(c, steps), sub) <= m
    ensures OkOnDay(After(c, steps).rows, sub, d) <= m
  {
    if steps != [] {
      var before, s := steps[..|steps| - 1], steps[|steps| - 1];
      var e, e' := After(c, before), After(c, steps);
      CapHoldsBelow(c, before, sub, m, d);
      if s.NotifyStep? && s.o < |e.objs| {
        AlwaysTimed(c, before, s.o);
      }
      ClockMoves(c, e, s);
      StepAccount(c, e, s, sub, d);
      StepAccount(c, e, s, sub, DayOf(e.now));
      StepAccount(c, e, s, sub, DayOf(e'.now));
      RowsInThePast(c, before);
      if DayOf(e'.now) > DayOf(e.now) {
        NothingTomorrow(e.rows, sub, e.now, DayOf(e'.now));
      }
    }
  }
}
