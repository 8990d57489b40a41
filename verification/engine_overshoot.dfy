/**
 The overshoot of the daily cap is real and the bound on it exact: for every cap, number of workers
 and queue depth there is a run whose successes of one day reach the cap plus workers plus queue
 depth, contrary to docs/WEBHOOKS.md's "per-day hard cap".

 The run lets m - 1 fires succeed, fills the workers and the queue while the count still says m - 1,
 lets one more match through, and then everything succeeds.
 */
module EngineOvershoot {
  import opened Subscription
  import opened Engine
  import opened EngineBudget
  import opened EngineCap

  const SUB := 7

  /** No cooldown, no debounce, at most m fires a day. */
  function AtMost(m: nat): Rules {
    Rules(SUB, 1, 2, 3, "u", "s", "{}", 0, 0, 0, m)
  }

  ghost predicate AllOfSub(ts: seq<Task>) {
    forall i :: 0 <= i < |ts| ==> ts[i].sub == SUB
  }

  /** The subscription is cached and idle; all tasks are its own, and none is queued beside an idle worker. */
  ghost predicate Ready(c: Config, e: State, m: nat) {
    && |e.objs| == 1 && e.objs[0].rules == AtMost(m) && e.objs[0].rt.timer == NoTimer && e.objs[0].rt.pending == []
    && e.cache == map[SUB := 0] && e.pauses == {} && e.now == 0
    && PoolRuns(c, e.pool) && e.pool.held == [] && AllOfSub(e.pool.queue) && AllOfSub(e.pool.busy)
    && e.pool.outcomes == [] && |e.pool.busy| + e.pool.idle == c.workers
    && (e.pool.idle > 0 ==> e.pool.queue == [])
  }

  /** The run so far had one version of the subscription and never a task waiting for its enqueue call at an opening. */
  ghost predicate Regular(c: Config, steps: seq<Step>, m: nat) {
    Ready(c, After(c, steps), m) && HeldWithin(c, steps, SUB, 0)
  }

  /** With a running pool at hand. */
  predicate Able(c: Config) { c.workers >= 1 && c.queueDepth >= 1 }

  lemma Boot(c: Config, m: nat) returns (steps: seq<Step>)
    requires Able(c)
    ensures Regular(c, steps, m)
    ensures var e := After(c, steps); e.rows == [] && e.pool.queue == [] && e.pool.busy == []
  {
    var a, b := PoolStep(Start), Install(AtMost(m));
    AfterSnoc(c, [], a);
    AfterSnoc(c, [] + [a], b);
    steps := [] + [a] + [b];
    assert steps[..1] == [] + [a] && ([] + [a])[..0] == [];
    HeldSnoc(c, [], a);
    HeldSnoc(c, [] + [a], b);
  }

  lemma HeldSnoc(c: Config, steps: seq<Step>, s: Step)
    requires HeldWithin(c, steps, SUB, 0)
    requires OpensFor(c, After(c, steps), s, SUB) ==> After(c, steps).pool.held == []
    ensures HeldWithin(c, steps + [s], SUB, 0)
  {
    assert (steps + [s])[..|steps|] == steps;
  }

  /** A match while today's successes are below the cap drains a task at once. */
  lemma Match(c: Config, steps: seq<Step>, m: nat) returns (after: seq<Step>)
    requires Regular(c, steps, m) && OkOnDay(After(c, steps).rows, SUB, 0) < m
    ensures HeldWithin(c, after, SUB, 0)
    ensures var e, e' := After(c, steps), After(c, after);
      && |e'.pool.held| == 1 && e'.pool.held[0].sub == SUB
      && Ready(c, e'.(pool := e.pool), m) && e'.rows == e.rows
      && e'.pool == e.pool.(held := e'.pool.held)
  {
    var e := After(c, steps);
    var n := |e.notes|;
    var ask := NotifyBegin(3, "ops", "a", []);
    var visit := NotifyStep(n, 0, true);
    AfterSnoc(c, steps, ask);
    HeldSnoc(c, steps, ask);
    var e1 := After(c, steps + [ask]);
    assert e.cache[SUB] == 0 && 0 in Watching(e, 3);
    assert e1.notes[n].todo == Watching(e, 3) && e1.notes[n].paused == {};
    RowsInThePast(c, steps);
    QueryCountsToday(e.rows, SUB, 0);
    assert VerdictOf(e1, 0) == Drained;
    AfterSnoc(c, steps + [ask], visit);
    HeldSnoc(c, steps + [ask], visit);
    after := steps + [ask] + [visit];
    assert e1.pool.held + [After(c, after).pool.held[0]] == After(c, after).pool.held;
  }

  lemma PutInQueue(c: Config, e: State)
    requires PoolRuns(c, e.pool) && |e.pool.held| == 1 && |e.pool.queue| < c.queueDepth
    ensures Next(c, e, PoolStep(Enqueue(0))) == e.(pool := e.pool.(held := [], queue := e.pool.queue + e.pool.held))
  {
    assert e.pool.held == [e.pool.held[0]];
  }

  /** An idle worker takes the only queued task. */
  lemma TakeOnly(c: Config, e: State, m: nat)
    requires Ready(c, e.(pool := e.pool.(queue := [])), m) && e.pool.idle > 0 && |e.pool.queue| == 1 && e.pool.queue[0].sub == SUB
    ensures var e' := Next(c, e, PoolStep(Take));
      Ready(c, e', m) && e'.rows == e.rows && |e'.pool.busy| == |e.pool.busy| + 1 && e'.pool.queue == []
  {
    assert e.pool.queue[1..] == [];
  }

  /** The held task is enqueued, and taken by a worker if one is idle. */
  lemma Place(c: Config, steps: seq<Step>, m: nat) returns (after: seq<Step>)
    requires var e := After(c, steps);
      && HeldWithin(c, steps, SUB, 0)
      && |e.pool.held| == 1 && e.pool.held[0].sub == SUB && Ready(c, e.(pool := e.pool.(held := [])), m)
      && |e.pool.queue| < c.queueDepth
    ensures Regular(c, after, m)
    ensures var e, e' := After(c, steps), After(c, after);
      && e'.rows == e.rows
      && if e.pool.idle > 0 then |e'.pool.busy| == |e.pool.busy| + 1 && e'.pool.queue == []
         else |e'.pool.queue| == |e.pool.queue| + 1 && e'.pool.busy == e.pool.busy
  {
    var e := After(c, steps);
    var put := PoolStep(Enqueue(0));
    AfterSnoc(c, steps, put);
    HeldSnoc(c, steps, put);
    PutInQueue(c, e);
    after := steps + [put];
    var e1 := After(c, after);
    if e.pool.idle > 0 {
      var take := PoolStep(Take);
      assert e1.(pool := e1.pool.(queue := [])) == e.(pool := e.pool.(held := []));
      TakeOnly(c, e1, m);
      AfterSnoc(c, after, take);
      HeldSnoc(c, after, take);
      after := after + [take];
    }
  }

  /** One more fire in flight. */
  lemma AddOne(c: Config, steps: seq<Step>, m: nat) returns (after: seq<Step>)
    requires Regular(c, steps, m) && OkOnDay(After(c, steps).rows, SUB, 0) < m
    requires |After(c, steps).pool.queue| < c.queueDepth
    ensures Regular(c, after, m)
    ensures var e, e' := After(c, steps), After(c, after);
      && e'.rows == e.rows
      && if e.pool.idle > 0 then |e'.pool.busy| == |e.pool.busy| + 1 && e'.pool.queue == []
         else |e'.pool.queue| == |e.pool.queue| + 1 && e'.pool.busy == e.pool.busy
  {
    var matched := Match(c, steps, m);
    after := Place(c, matched, m);
  }

  /** k fires succeed one after the other. */
  lemma {:induction false} Succeed(c: Config, m: nat, k: nat) returns (steps: seq<Step>)
    requires Able(c) && k <= m
    ensures Regular(c, steps, m)
    ensures var e := After(c, steps);
      OkOnDay(e.rows, SUB, 0) == k && e.pool.queue == [] && e.pool.busy == []
  {
    if k == 0 {
      steps := Boot(c, m);
    } else {
      var before := Succeed(c, m, k - 1);
      var one := AddOne(c, before, m);
      steps := DeliverOnly(c, one, m);
    }
  }

  /** The one busy worker delivers and records a success. */
  lemma DeliverOnly(c: Config, steps: seq<Step>, m: nat) returns (after: seq<Step>)
    requires Regular(c, steps, m) && |After(c, steps).pool.busy| == 1 && After(c, steps).pool.queue == []
    ensures Regular(c, after, m)
    ensures var e, e' := After(c, steps), After(c, after);
      OkOnDay(e'.rows, SUB, 0) == OkOnDay(e.rows, SUB, 0) + 1 && e'.pool.queue == [] && e'.pool.busy == []
  {
    var s, t := Answer(0, Delivered), Record(0, 1);
    var e := After(c, steps);
    var e1 := Next(c, e, s);
    AnswerReady(c, e, m);
    RecordReady(c, e1, m);
    AfterSnoc(c, steps, s);
    HeldSnoc(c, steps, s);
    AfterSnoc(c, steps + [s], t);
    HeldSnoc(c, steps + [s], t);
    after := steps + [s] + [t];
  }

  lemma RecordReady(c: Config, e: State, m: nat)
    requires |e.pool.outcomes| == 1 && SuccessOf(SUB)(e.pool.outcomes[0]) && e.pool.busy == [] && e.pool.queue == []
    requires Ready(c, e.(pool := e.pool.(outcomes := [], idle := e.pool.idle + 1)), m)
    ensures var e' := Next(c, e, Record(0, 1));
      && Ready(c, e', m) && OkOnDay(e'.rows, SUB, 0) == OkOnDay(e.rows, SUB, 0) + 1
      && e'.pool.queue == [] && e'.pool.busy == []
  {
    RecordCommitted(e, 0, 1, SUB, 0);
  }

  lemma AnswerReady(c: Config, e: State, m: nat)
    requires Ready(c, e, m) && |e.pool.busy| == 1 && e.pool.queue == []
    ensures var e1 := Next(c, e, Answer(0, Delivered));
      && |e1.pool.outcomes| == 1 && SuccessOf(SUB)(e1.pool.outcomes[0]) && e1.pool.busy == [] && e1.pool.queue == []
      && Ready(c, e1.(pool := e1.pool.(outcomes := [], idle := e1.pool.idle + 1)), m) && e1.rows == e.rows
  {
  }

  /** Fires pile up until all workers are busy and the queue is full. */
  lemma {:induction false} Fill(c: Config, steps: seq<Step>, m: nat) returns (after: seq<Step>)
    requires Regular(c, steps, m) && OkOnDay(After(c, steps).rows, SUB, 0) < m
    requires |After(c, steps).pool.queue| <= c.queueDepth
    ensures Regular(c, after, m)
    ensures var e, e' := After(c, steps), After(c, after);
      e'.rows == e.rows && |e'.pool.busy| == c.workers && |e'.pool.queue| == c.queueDepth
    decreases c.queueDepth - |After(c, steps).pool.queue| + After(c, steps).pool.idle
  {
    if |After(c, steps).pool.queue| == c.queueDepth {
      after := steps;
    } else {
      var one := AddOne(c, steps, m);
      after := Fill(c, one, m);
    }
  }

  lemma {:induction false} AllCounted(ts: seq<Task>)
    requires AllOfSub(ts)
    ensures OfSub(ts, SUB) == |ts|
  {
    if ts != [] { AllCounted(ts[..|ts| - 1]); }
  }

  /** Calm steps compile nothing and open nothing. */
  lemma {:induction false} CalmKeeps(c: Config, steps: seq<Step>, rest: seq<Step>)
    requires AllCalm(rest) && HeldWithin(c, steps, SUB, 0)
    ensures HeldWithin(c, steps + rest, SUB, 0)
    ensures var e, e' := After(c, steps), After(c, steps + rest);
      |e'.objs| == |e.objs| && forall o :: 0 <= o < |e.objs| ==> e'.objs[o].rules == e.objs[o].rules
  {
    if rest == [] {
      assert steps + rest == steps;
    } else {
      var most, s := rest[..|rest| - 1], rest[|rest| - 1];
      CalmKeeps(c, steps, most);
      assert steps + rest == steps + most + [s];
      AfterSnoc(c, steps + most, s);
      HeldSnoc(c, steps + most, s);
      StepExtends(c, After(c, steps + most), s);
      CalmKeepsCount(c, After(c, steps + most), s);
    }
  }

  lemma CalmKeepsCount(c: Config, e: State, s: Step)
    requires Calm(s)
    ensures |Next(c, e, s).objs| == |e.objs|
  {
  }

  /** m - 1 successes, everything full, and one more fire drained. */
  lemma Overfull(c: Config, m: nat) returns (steps: seq<Step>)
    requires Able(c) && m >= 1
    ensures HeldWithin(c, steps, SUB, 0)
    ensures var e := After(c, steps);
      && |e.objs| == 1 && e.objs[0].rules == AtMost(m) && DayOf(e.now) == 0
      && CanFinishToday(c, e, SUB) && Committed(e, SUB) == m + c.workers + c.queueDepth
  {
    var before := Succeed(c, m, m - 1);
    var full := Fill(c, before, m);
    steps := Match(c, full, m);
    var e := After(c, steps);
    AllCounted(e.pool.queue);
    AllCounted(e.pool.busy);
    AllCounted(e.pool.held);
    NoDebounceNoWindows(c, steps, SUB);
    assert e.objs[..0] == [] && Windows(e.objs, SUB) == 0;
  }

  /**
   The bound of DailyOvershootBound is reached: with one compiled version and an enqueue directly
   after each drain, some run has exactly cap + workers + queue depth successes on a day.
   */
  lemma {:induction false} OvershootBoundAttained(c: Config, m: nat) returns (steps: seq<Step>)
    requires Able(c) && m >= 1
    ensures var e := After(c, steps);
      && Capped(e, SUB, m) && HeldWithin(c, steps, SUB, 0) && Versions(e.objs, SUB) == 1
      && OkOnDay(e.rows, SUB, 0) == m + c.workers + c.queueDepth
  {
    var before := Overfull(c, m);
    var rest := AllCommittedCanSucceed(c, before, SUB);
    CalmKeeps(c, before, rest);
    steps := before + rest;
    var e := After(c, steps);
    assert e.objs[..0] == [];
  }

  /** In particular the documented hard cap is exceeded, whatever it is. */
  lemma CapCanBeExceeded(c: Config, m: nat) returns (steps: seq<Step>)
    requires Able(c) && m >= 1
    ensures Capped(After(c, steps), SUB, m) && OkOnDay(After(c, steps).rows, SUB, 0) > m
  {
    steps := OvershootBoundAttained(c, m);
  }
}
