/**
 The fire rows against the answers they report (internal/webhook/worker.go, deliver): the failure
 counter changes under the subscription's lock, the row is written after the lock is released. So rows
 report every answer once, but with several workers not in the order of the answers.
 */
module EngineReports {
  import opened Base
  import opened Engine
  import opened EngineDisable
  import opened EngineOvershoot

  function EndingsOf(e: State, o: nat): seq<Ending> {
    if o < |e.objs| then e.objs[o].endings else []
  }

  function EndedAs(o: nat, ending: Ending): Outcome -> bool {
    (x: Outcome) => x.task.obj == o && x.ending == ending
  }

  /** Rows and outcomes still to be recorded tell how often object o got this answer. */
  ghost predicate Reported(e: State, o: nat, ending: Ending) {
    Occurrences(EndingsOf(e, o), ending)
      == Occurrences(Trail(e.rows, o), ending) + CountIf(e.pool.outcomes, EndedAs(o, ending))
  }

  lemma AnswerReported(c: Config, e: State, i: nat, answer: Ending, o: nat, ending: Ending)
    requires i < |e.pool.busy| && e.pool.busy[i].obj < |e.objs| && Reported(e, o, ending)
    ensures Reported(AnswerTask(c, e, i, answer), o, ending)
  {
    var t, e' := e.pool.busy[i], AnswerTask(c, e, i, answer);
    var x := e'.pool.outcomes[|e.pool.outcomes|];
    assert e'.pool.outcomes == e.pool.outcomes + [x];
    CountIfAppend(e.pool.outcomes, x, EndedAs(o, ending));
    OccurrencesAppend(e.objs[t.obj].endings, answer, ending);
  }

  lemma EndingBack(ending: Ending)
    ensures EndingOf(StatusFor(ending)) == ending
  {
  }

  lemma RecordReported(e: State, j: nat, attempts: int, o: nat, ending: Ending)
    requires j < |e.pool.outcomes| && Reported(e, o, ending)
    ensures Reported(RecordOutcome(e, j, attempts), o, ending)
  {
    var x := e.pool.outcomes[j];
    CountIfWithout(e.pool.outcomes, j, EndedAs(o, ending));
    TrailAppend(e.rows, ReportOf(x, e.now, attempts), o);
    EndingBack(x.ending);
    OccurrencesAppend(Trail(e.rows, o), x.ending, ending);
    assert Trail(e.rows, o) + [] == Trail(e.rows, o);
  }

  /** The row of a delivery tells whose it was, when it was written, how it ended and after how many attempts. */
  lemma RowTells(c: Config, e: State, j: nat, attempts: int)
    requires j < |e.pool.outcomes|
    ensures var x, e' := e.pool.outcomes[j], Next(c, e, Record(j, attempts));
      && |e'.rows| == |e.rows| + 1 && e.rows <= e'.rows
      && var r := e'.rows[|e.rows|];
         && r.sub == x.task.sub && r.at == e.now && r.attempts == attempts && r.task == Some(x.task)
         && (r.status == StatusOk <==> x.ending == Delivered)
         && (r.status == StatusDropped4xx <==> x.ending == Refused)
         && (r.status == StatusFailed <==> x.ending == GaveUp)
  {
  }

  /** Other steps report nothing and end nothing. */
  lemma ElsewhereQuiet(c: Config, e: State, s: Step, o: nat)
    requires !(Enabled(c, e, s) && (s.Answer? || s.Record?))
    ensures var e' := Next(c, e, s);
      EndingsOf(e', o) == EndingsOf(e, o) && Trail(e'.rows, o) == Trail(e.rows, o) && e'.pool.outcomes == e.pool.outcomes
  {
    StepLeavesTrail(c, e, s, o);
    OutcomesKept(c, e, s);
    if o < |e.objs| {
      StepLeavesTally(c, e, s, o);
    } else if Loud(s) {
      if Enabled(c, e, s) && s.NotifyStep? { VisitFrame(e, s.n, s.o, s.hit); }
    } else {
      StepQuiet(c, e, s);
    }
  }

  lemma OutcomesKept(c: Config, e: State, s: Step)
    requires !(Enabled(c, e, s) && (s.Answer? || s.Record?))
    ensures Next(c, e, s).pool.outcomes == e.pool.outcomes
  {
    if Enabled(c, e, s) && s.NotifyStep? { VisitFrame(e, s.n, s.o, s.hit); }
  }

  /** In every run each answer of an object is reported by one row, or by one still to be written. */
  lemma {:induction false} AnswersReported(c: Config, steps: seq<Step>, o: nat, ending: Ending)
    ensures var e := After(c, steps);
      Occurrences(EndingsOf(e, o), ending)
        == Occurrences(Trail(e.rows, o), ending) + CountIf(e.pool.outcomes, EndedAs(o, ending))
  {
    if steps != [] {
      var before, s := steps[..|steps| - 1], steps[|steps| - 1];
      var e := After(c, before);
      AnswersReported(c, before, o, ending);
      if Enabled(c, e, s) && s.Answer? {
        TaskObjectsExist(c, before, e.pool.busy[s.i]);
        AnswerReported(c, e, s.i, s.ending, o, ending);
      } else if Enabled(c, e, s) && s.Record? {
        RecordReported(e, s.j, s.attempts, o, ending);
      } else {
        ElsewhereQuiet(c, e, s, o);
      }
    }
  }

  // The order of the rows

  /** The rows of object o so far report its answers in their order. */
  ghost predicate InOrder(e: State, o: nat) {
    Trail(e.rows, o) <= EndingsOf(e, o)
  }

  /** In every run they do, for every object. */
  ghost predicate RowsFollowAnswers(c: Config) {
    forall steps, o :: InOrder(After(c, steps), o)
  }

  /** At most one worker ever has a task. */
  predicate OneAtATime(c: Config) {
    c.workers <= 1 || c.queueDepth == 0
  }

  function Waiting(xs: seq<Outcome>, o: nat): seq<Ending> {
    if xs == [] then []
    else Waiting(xs[..|xs| - 1], o) + if xs[|xs| - 1].task.obj == o then [xs[|xs| - 1].ending] else []
  }

  ghost predicate InStep(e: State, o: nat) {
    EndingsOf(e, o) == Trail(e.rows, o) + Waiting(e.pool.outcomes, o)
  }

  /** Without a queue slot nothing ever reaches a worker. */
  lemma {:induction false} NoQueueNoWork(c: Config, steps: seq<Step>)
    requires c.queueDepth == 0
    ensures var p := After(c, steps).pool; p.busy == [] && p.outcomes == []
  {
    if steps != [] {
      var before, s := steps[..|steps| - 1], steps[|steps| - 1];
      NoQueueNoWork(c, before);
      AlwaysWellFormed(c, before);
      if Enabled(c, After(c, before), s) && s.NotifyStep? { VisitFrame(After(c, before), s.n, s.o, s.hit); }
    }
  }

  lemma OneOutcome(c: Config, steps: seq<Step>)
    requires OneAtATime(c)
    ensures var p := After(c, steps).pool; |p.busy| + |p.outcomes| <= 1
  {
    AlwaysWellFormed(c, steps);
    if c.queueDepth == 0 { NoQueueNoWork(c, steps); }
  }

  lemma WaitingOne(x: Outcome, o: nat)
    ensures Waiting([x], o) == if x.task.obj == o then [x.ending] else []
  {
    assert [x][..0] == [];
  }

  /** What an answer adds to the endings and outcomes. */
  lemma AnswerAdds(c: Config, e: State, i: nat, answer: Ending, o: nat) returns (x: Outcome)
    requires i < |e.pool.busy| && e.pool.busy[i].obj < |e.objs|
    ensures x.task == e.pool.busy[i] && x.ending == answer
    ensures var e' := AnswerTask(c, e, i, answer);
      && e'.pool.outcomes == e.pool.outcomes + [x] && e'.pool.busy == Without(e.pool.busy, i) && e'.rows == e.rows
      && EndingsOf(e', o) == EndingsOf(e, o) + if x.task.obj == o then [answer] else []
  {
    x := AnswerTask(c, e, i, answer).pool.outcomes[|e.pool.outcomes|];
  }

  lemma AnswerInStep(c: Config, e: State, i: nat, answer: Ending, o: nat)
    requires i < |e.pool.busy| && e.pool.busy[i].obj < |e.objs| && e.pool.outcomes == [] && InStep(e, o)
    ensures InStep(AnswerTask(c, e, i, answer), o)
  {
    var x := AnswerAdds(c, e, i, answer, o);
    WaitingOne(x, o);
    assert [] + [x] == [x] && Trail(e.rows, o) + [] == Trail(e.rows, o);
  }

  lemma RecordInStep(e: State, attempts: int, o: nat)
    requires |e.pool.outcomes| == 1 && InStep(e, o)
    ensures InStep(RecordOutcome(e, 0, attempts), o)
  {
    var x := e.pool.outcomes[0];
    TrailAppend(e.rows, ReportOf(x, e.now, attempts), o);
    EndingBack(x.ending);
    assert e.pool.outcomes == [x] && [x][..0] == [];
  }

  lemma {:induction false} AlwaysInStep(c: Config, steps: seq<Step>, o: nat)
    requires OneAtATime(c)
    ensures InStep(After(c, steps), o)
  {
    if steps != [] {
      var before, s := steps[..|steps| - 1], steps[|steps| - 1];
      var e := After(c, before);
      AlwaysInStep(c, before, o);
      OneOutcome(c, before);
      if Enabled(c, e, s) && s.Answer? {
        TaskObjectsExist(c, before, e.pool.busy[s.i]);
        AnswerInStep(c, e, s.i, s.ending, o);
      } else if Enabled(c, e, s) && s.Record? {
        RecordInStep(e, s.attempts, o);
      } else {
        ElsewhereQuiet(c, e, s, o);
      }
    }
  }

  /** The first busy worker's delivery of object 0 ends. */
  lemma FirstAnswers(c: Config, e: State, answer: Ending) returns (x: Outcome)
    requires |e.objs| == 1 && e.pool.busy != [] && e.pool.busy[0].obj == 0
    ensures x.task == e.pool.busy[0] && x.ending == answer
    ensures var e' := Next(c, e, Answer(0, answer));
      && |e'.objs| == 1 && e'.objs[0].endings == e.objs[0].endings + [answer]
      && e'.pool.outcomes == e.pool.outcomes + [x] && e'.pool.busy == Without(e.pool.busy, 0) && e'.rows == e.rows
  {
    x := AnswerAdds(c, e, 0, answer, 0);
  }

  /** Two busy workers: one is refused, then the other succeeds. */
  lemma TwoAnswers(c: Config, e: State, a: Task, b: Task) returns (x: Outcome, y: Outcome)
    requires |e.objs| == 1 && e.objs[0].endings == [] && a.obj == 0 && b.obj == 0
    requires e.pool.busy == [a, b] && e.pool.outcomes == []
    ensures x.task == a && x.ending == Refused && y.task == b && y.ending == Delivered
    ensures var e1 := Next(c, Next(c, e, Answer(0, Refused)), Answer(0, Delivered));
      && |e1.objs| == 1 && e1.objs[0].endings == [Refused, Delivered] && e1.rows == e.rows && e1.pool.outcomes == [x, y]
  {
    x := FirstAnswers(c, e, Refused);
    WithoutFirst(a, b);
    y := FirstAnswers(c, Next(c, e, Answer(0, Refused)), Delivered);
  }

  lemma WithoutFirst<T>(a: T, b: T)
    ensures Without([a, b], 0) == [b]
  {
    assert [a, b][..1] == [a];
  }

  lemma TrailOne(r: Row, o: nat)
    requires r.task.Some? && r.task.value.obj == o
    ensures Trail([r], o) == [EndingOf(r.status)]
  {
    assert [r][..0] == [];
  }

  /** The second of two outcomes is recorded first. */
  lemma RecordedBackwards(c: Config, e: State, x: Outcome, y: Outcome)
    requires e.pool.outcomes == [x, y] && e.rows == [] && x.task.obj == 0 && y.task.obj == 0
    ensures var e2 := Next(c, Next(c, e, Record(1, 1)), Record(0, 1));
      e2.objs == e.objs && Trail(e2.rows, 0) == [y.ending, x.ending]
  {
    var r, q := ReportOf(y, e.now, 1), ReportOf(x, e.now, 1);
    RecordSecond(c, e, x, y);
    var e1 := Next(c, e, Record(1, 1));
    TrailOne(r, 0);
    TrailAppend([r], q, 0);
    EndingBack(x.ending);
    EndingBack(y.ending);
    assert Next(c, e1, Record(0, 1)).rows == [r] + [q];
  }

  lemma RecordSecond(c: Config, e: State, x: Outcome, y: Outcome)
    requires e.pool.outcomes == [x, y] && e.rows == []
    ensures var e1 := Next(c, e, Record(1, 1));
      e1.objs == e.objs && e1.now == e.now && e1.pool.outcomes == [x] && e1.rows == [ReportOf(y, e.now, 1)]
  {
    assert [x, y][..1] == [x];
  }

  lemma AfterFour(c: Config, steps: seq<Step>, p: Step, q: Step, r: Step, s: Step)
    ensures After(c, steps + [p, q, r, s]) == Next(c, Next(c, Next(c, Next(c, After(c, steps), p), q), r), s)
  {
    AfterSnoc(c, steps, p);
    AfterSnoc(c, steps + [p], q);
    AfterSnoc(c, steps + [p] + [q], r);
    AfterSnoc(c, steps + [p] + [q] + [r], s);
    assert steps + [p] + [q] + [r] + [s] == steps + [p, q, r, s];
  }

  /** Two workers and a queue are enough for rows out of order. */
  lemma RowsOvertake(c: Config) returns (steps: seq<Step>)
    requires !OneAtATime(c)
    ensures var e := After(c, steps);
      && |e.objs| == 1 && e.objs[0].endings == [Refused, Delivered] && Trail(e.rows, 0) == [Delivered, Refused]
      && e.objs[0].consec == 0 && RefusedSinceOk(Trail(e.rows, 0)) == 1
  {
    var boot := Boot(c, 1);
    var one := AddOne(c, boot, 1);
    var two := AddOne(c, one, 1);
    var e := After(c, two);
    forall x ensures Occurrences(e.objs[0].endings, x) == 0 { AnswersReported(c, two, 0, x); }
    NoAnswers(e.objs[0].endings);
    var a, b := e.pool.busy[0], e.pool.busy[1];
    TaskObjectsExist(c, two, a);
    TaskObjectsExist(c, two, b);
    var x, y := TwoAnswers(c, e, a, b);
    RecordedBackwards(c, Next(c, Next(c, e, Answer(0, Refused)), Answer(0, Delivered)), x, y);
    AfterFour(c, two, Answer(0, Refused), Answer(0, Delivered), Record(1, 1), Record(0, 1));
    steps := two + [Answer(0, Refused), Answer(0, Delivered), Record(1, 1), Record(0, 1)];
    FailuresTallied(c, steps, 0);
    assert [Refused, Delivered][..1] == [Refused] && [Delivered, Refused][..1] == [Delivered];
  }

  lemma NoAnswers(endings: seq<Ending>)
    requires forall x :: Occurrences(endings, x) == 0
    ensures endings == []
  {
    if endings != [] { LastOccurs(endings); }
  }

  lemma LastOccurs(endings: seq<Ending>)
    requires endings != []
    ensures Occurrences(endings, endings[|endings| - 1]) >= 1
  {
  }

  /**
   The rows of a subscription report its answers in their order, in every run, if and only if no two
   workers can have tasks at once.
   */
  lemma {:induction false} RowsFollowAnswersIff(c: Config)
    ensures RowsFollowAnswers(c) <==> OneAtATime(c)
  {
    if OneAtATime(c) {
      forall steps, o ensures InOrder(After(c, steps), o) { AlwaysInStep(c, steps, o); }
    } else {
      var steps := RowsOvertake(c);
      assert !InOrder(After(c, steps), 0);
    }
  }
}
