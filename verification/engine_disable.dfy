/**
 Consecutive failures and auto-disable over whole runs (internal/webhook/worker.go, deliver and
 autoDisable).
 */
module EngineDisable {
  import opened Base
  import opened Engine

  /** Refusals since the last success; exhausted retries count neither way. */
  function RefusedSinceOk(endings: seq<Ending>): nat {
    if endings == [] then 0
    else
      var before := endings[..|endings| - 1];
      match endings[|endings| - 1]
      case Delivered => 0
      case Refused => RefusedSinceOk(before) + 1
      case GaveUp => RefusedSinceOk(before)
  }

  /** The endings that object o's fire rows report, oldest first. */
  function Trail(rows: seq<Row>, o: nat): seq<Ending> {
    if rows == [] then []
    else
      var r := rows[|rows| - 1];
      Trail(rows[..|rows| - 1], o) + if r.task.Some? && r.task.value.obj == o then [EndingOf(r.status)] else []
  }

  function EndingOf(status: Status): Ending {
    match status
    case StatusOk => Delivered
    case StatusDropped4xx => Refused
    case _ => GaveUp
  }

  /** The positions of the refusals that left the count at or above the threshold, in order. */
  function Tripped(threshold: int, endings: seq<Ending>): seq<nat> {
    if endings == [] then []
    else
      var n := |endings| - 1;
      Tripped(threshold, endings[..n])
      + if endings[n] == Refused && RefusedSinceOk(endings) >= threshold then [n] else []
  }

  /** k trips auto-disable: the k-th delivery was refused and left the count at the threshold or above. */
  predicate Trips(threshold: int, endings: seq<Ending>, k: nat) {
    k < |endings| && endings[k] == Refused && RefusedSinceOk(endings[..k + 1]) >= threshold
  }

  lemma {:induction false} TrippedExactly(threshold: int, endings: seq<Ending>)
    ensures forall k: nat :: k in Tripped(threshold, endings) <==> Trips(threshold, endings, k)
    ensures var ks := Tripped(threshold, endings); forall i, j :: 0 <= i < j < |ks| ==> ks[i] < ks[j]
  {
    if endings != [] {
      var n := |endings| - 1;
      var ks := Tripped(threshold, endings);
      TrippedExactly(threshold, endings[..n]);
      assert endings[..n + 1] == endings;
      forall k: nat ensures k in ks <==> Trips(threshold, endings, k) {
        if k < n {
          assert endings[..n][..k + 1] == endings[..k + 1];
          assert Trips(threshold, endings, k) <==> Trips(threshold, endings[..n], k);
        } else {
          assert !Trips(threshold, endings[..n], k);
        }
      }
      forall i, j | 0 <= i < j < |ks| ensures ks[i] < ks[j] {
        assert ks[i] == Tripped(threshold, endings[..n])[i];
        assert ks[i] in Tripped(threshold, endings[..n]);
        assert Trips(threshold, endings[..n], ks[i]);
      }
    }
  }

  /** The failure counter and the calls for auto-disable are what the answers of object o make of them. */
  ghost predicate Tallied(c: Config, e: State, o: nat)
    requires o < |e.objs|
  {
    var x := e.objs[o];
    x.consec == RefusedSinceOk(x.endings) && x.disables == Tripped(c.threshold, x.endings)
  }

  lemma RefusedAppend(endings: seq<Ending>, ending: Ending)
    ensures RefusedSinceOk(endings + [ending]) == NextConsec(RefusedSinceOk(endings), ending)
  {
    assert (endings + [ending])[..|endings|] == endings;
  }

  lemma TrailAppend(rows: seq<Row>, r: Row, o: nat)
    ensures Trail(rows + [r], o)
         == Trail(rows, o) + if r.task.Some? && r.task.value.obj == o then [EndingOf(r.status)] else []
  {
    assert (rows + [r])[..|rows|] == rows;
  }

  lemma ConcludeTallies(c: Config, x: Live, ending: Ending)
    requires x.consec == RefusedSinceOk(x.endings) && x.disables == Tripped(c.threshold, x.endings)
    ensures var x' := Conclude(c, x, ending);
      x'.consec == RefusedSinceOk(x'.endings) && x'.disables == Tripped(c.threshold, x'.endings)
  {
    RefusedAppend(x.endings, ending);
    assert (x.endings + [ending])[..|x.endings|] == x.endings;
  }

  /** Only recording an outcome reports anything for an object. */
  lemma StepLeavesTrail(c: Config, e: State, s: Step, o: nat)
    requires !(s.Record? && Enabled(c, e, s))
    ensures Trail(Next(c, e, s).rows, o) == Trail(e.rows, o)
  {
    if s.NotifyStep? && Enabled(c, e, s) {
      VisitFrame(e, s.n, s.o, s.hit);
      var e' := Next(c, e, s);
      if |e'.rows| > |e.rows| { TrailAppend(e.rows, e'.rows[|e.rows|], o); }
    } else {
      assert Next(c, e, s).rows == e.rows;
    }
  }

  lemma VisitLeavesTally(e: State, n: nat, p: nat, hit: bool, o: nat)
    requires n < |e.notes| && p < |e.objs| && o < |e.objs|
    ensures var e' := Visit(e, n, p, hit);
      && o < |e'.objs|
      && e'.objs[o].consec == e.objs[o].consec && e'.objs[o].endings == e.objs[o].endings
      && e'.objs[o].disables == e.objs[o].disables
  {
  }

  ghost predicate SameTally(e: State, e': State, o: nat)
    requires o < |e.objs|
  {
    && o < |e'.objs|
    && e'.objs[o].consec == e.objs[o].consec && e'.objs[o].endings == e.objs[o].endings
    && e'.objs[o].disables == e.objs[o].disables
  }

  lemma QuietLeavesTally(c: Config, e: State, s: Step, o: nat)
    requires o < |e.objs| && !s.Answer? && !Loud(s)
    ensures SameTally(e, Next(c, e, s), o)
  {
  }

  /** Steps other than a delivery's answer leave the tally of every object alone. */
  lemma StepLeavesTally(c: Config, e: State, s: Step, o: nat)
    requires o < |e.objs| && !(s.Answer? && Enabled(c, e, s))
    ensures SameTally(e, Next(c, e, s), o)
  {
    if !Loud(s) {
      if !s.Answer? { QuietLeavesTally(c, e, s, o); }
    } else if Enabled(c, e, s) && s.NotifyStep? {
      VisitLeavesTally(e, s.n, s.o, s.hit, o);
    }
  }

  lemma AnswerTallied(c: Config, e: State, i: nat, ending: Ending, o: nat)
    requires i < |e.pool.busy| && o < |e.objs| && Tallied(c, e, o)
    ensures var e' := AnswerTask(c, e, i, ending); o < |e'.objs| && Tallied(c, e', o)
  {
    if e.pool.busy[i].obj == o {
      ConcludeTallies(c, e.objs[o], ending);
    }
  }

  /** Every task in the pool was drained from an object that exists. */
  lemma {:induction false} TaskObjectsExist(c: Config, steps: seq<Step>, t: Task)
    requires var p := After(c, steps).pool; t in p.held || t in p.queue || t in p.busy
    ensures t.obj < |After(c, steps).objs|
  {
    if steps != [] {
      var before, s := steps[..|steps| - 1], steps[|steps| - 1];
      var e, e' := After(c, before), After(c, steps);
      StepExtends(c, e, s);
      if t in e.pool.held || t in e.pool.queue || t in e.pool.busy {
        TaskObjectsExist(c, before, t);
      } else {
        NewInPool(c, e, s, t);
        AlwaysWellFormed(c, steps);
        assert TaskOk(e', |e.tasks|);
      }
    }
  }

  lemma WithoutElement<T>(s: seq<T>, i: nat, x: T)
    requires i < |s| && x in Without(s, i)
    ensures x in s
  {
  }

  lemma NewInPool(c: Config, e: State, s: Step, t: Task)
    requires var p := Next(c, e, s).pool; t in p.held || t in p.queue || t in p.busy
    requires t !in e.pool.held && t !in e.pool.queue && t !in e.pool.busy
    ensures var e' := Next(c, e, s); |e'.tasks| == |e.tasks| + 1 && e'.tasks[|e.tasks|] == t
  {
    if Enabled(c, e, s) {
      match s
      case PoolStep(m) =>
        if m.Enqueue? && t in Without(e.pool.held, m.i) { WithoutElement(e.pool.held, m.i, t); }
      case Answer(i, _) =>
        if t in Without(e.pool.busy, i) { WithoutElement(e.pool.busy, i, t); }
      case NotifyStep(n, o, hit) => VisitFrame(e, n, o, hit);
      case _ =>
    }
  }

  lemma NewTallied(c: Config, e: State, s: Step, o: nat)
    requires |e.objs| <= o < |Next(c, e, s).objs|
    ensures Tallied(c, Next(c, e, s), o)
  {
    if Loud(s) {
      if Enabled(c, e, s) && s.NotifyStep? { VisitFrame(e, s.n, s.o, s.hit); }
    } else {
      StepQuiet(c, e, s);
    }
  }

  /**
   For every compiled subscription in every run: consec4xx is the number of permanent answers since
   the last success among its answers, and auto-disable was called for by exactly those that left the
   count at or above the threshold, once each (see TrippedExactly).
   */
  lemma {:induction false} FailuresTallied(c: Config, steps: seq<Step>, o: nat)
    requires o < |After(c, steps).objs|
    ensures var x := After(c, steps).objs[o];
      x.consec == RefusedSinceOk(x.endings) && x.disables == Tripped(c.threshold, x.endings)
  {
    if steps != [] {
      var before, s := steps[..|steps| - 1], steps[|steps| - 1];
      var e := After(c, before);
      if o >= |e.objs| {
        NewTallied(c, e, s, o);
      } else {
        FailuresTallied(c, before, o);
        if s.Answer? && Enabled(c, e, s) {
          AnswerTallied(c, e, s.i, s.ending, o);
        } else {
          StepLeavesTally(c, e, s, o);
        }
      }
    }
  }

  /** Auto-disable runs carried out for object o so far. */
  function Taken(c: Config, steps: seq<Step>, o: nat): nat {
    if steps == [] then 0
    else
      var before, s := steps[..|steps| - 1], steps[|steps| - 1];
      var e := After(c, before);
      Taken(c, before, o) + if Disabling(c, e, s, o) then 1 else 0
  }

  function Triggered(e: State, o: nat): nat {
    if o < |e.objs| then |e.objs[o].disables| else 0
  }

  /** A permanent answer of object o that called for auto-disable and whose row is still to be written. */
  function CallsFor(o: nat): Outcome -> bool {
    (x: Outcome) => x.task.obj == o && x.disable
  }

  /** The auto-disables of o that are still to come. */
  function Outstanding(e: State, o: nat): nat {
    Occurrences(e.dueDisables, o) + CountIf(e.pool.outcomes, CallsFor(o))
  }

  predicate Disabling(c: Config, e: State, s: Step, o: nat) {
    s.AutoDisable? && Enabled(c, e, s) && e.dueDisables[s.i] == o
  }

  lemma AnswerDue(c: Config, e: State, i: nat, ending: Ending, o: nat)
    requires i < |e.pool.busy|
    ensures var e' := AnswerTask(c, e, i, ending);
      Outstanding(e', o) - Outstanding(e, o) == Triggered(e', o) - Triggered(e, o)
  {
    var e' := AnswerTask(c, e, i, ending);
    var x := e'.pool.outcomes[|e.pool.outcomes|];
    assert e'.pool.outcomes == e.pool.outcomes + [x];
    CountIfAppend(e.pool.outcomes, x, CallsFor(o));
  }

  lemma RecordDue(e: State, j: nat, attempts: int, o: nat)
    requires j < |e.pool.outcomes|
    ensures var e' := RecordOutcome(e, j, attempts); Outstanding(e', o) == Outstanding(e, o)
  {
    CountIfWithout(e.pool.outcomes, j, CallsFor(o));
    OccurrencesAppend(e.dueDisables, e.pool.outcomes[j].task.obj, o);
  }

  lemma StepDue(c: Config, e: State, s: Step, o: nat)
    ensures var e' := Next(c, e, s);
      Outstanding(e', o) + (if Disabling(c, e, s, o) then 1 else 0) - Outstanding(e, o) == Triggered(e', o) - Triggered(e, o)
  {
    StepExtends(c, e, s);
    if Enabled(c, e, s) && s.Answer? {
      AnswerDue(c, e, s.i, s.ending, o);
    } else {
      if o < |e.objs| { StepLeavesTally(c, e, s, o); } else { NewUntriggered(c, e, s, o); }
      if Enabled(c, e, s) && s.Record? {
        RecordDue(e, s.j, s.attempts, o);
      } else if Enabled(c, e, s) && s.AutoDisable? {
        OccurrencesWithout(e.dueDisables, s.i, o);
      } else {
        DueOtherwise(c, e, s);
      }
    }
  }

  lemma DueOtherwise(c: Config, e: State, s: Step)
    requires !(Enabled(c, e, s) && (s.Answer? || s.Record? || s.AutoDisable?))
    ensures Next(c, e, s).dueDisables == e.dueDisables && Next(c, e, s).pool.outcomes == e.pool.outcomes
  {
    if Enabled(c, e, s) && s.NotifyStep? { VisitFrame(e, s.n, s.o, s.hit); }
  }

  lemma NewUntriggered(c: Config, e: State, s: Step, o: nat)
    requires o >= |e.objs|
    ensures Triggered(Next(c, e, s), o) == 0
  {
    if Loud(s) {
      if Enabled(c, e, s) && s.NotifyStep? { VisitFrame(e, s.n, s.o, s.hit); }
    } else {
      StepQuiet(c, e, s);
    }
  }

  /**
   In every run the auto-disables of an object that were carried out, and those its deliveries have
   called for and that are still to come, are together exactly its tripping answers.
   */
  lemma {:induction false} DisablesTaken(c: Config, steps: seq<Step>, o: nat)
    ensures var e := After(c, steps); Taken(c, steps, o) + Outstanding(e, o) == Triggered(e, o)
    ensures var e := After(c, steps); o < |e.objs| ==> Triggered(e, o) == |Tripped(c.threshold, e.objs[o].endings)|
  {
    if steps != [] {
      DisablesTaken(c, steps[..|steps| - 1], o);
      StepDue(c, After(c, steps[..|steps| - 1]), steps[|steps| - 1], o);
    }
    if o < |After(c, steps).objs| { FailuresTallied(c, steps, o); }
  }

  ghost predicate NoVersionOf(e: State, todo: set<nat>, id: Id) {
    forall o :: o in todo ==> o < |e.objs| && e.objs[o].rules.id != id
  }

  /** No notification from number n on is to visit a version of id. */
  ghost predicate NotVisited(e: State, n: nat, id: Id) {
    forall m :: n <= m < |e.notes| ==> NoVersionOf(e, e.notes[m].todo, id)
  }

  /** Visits shorten what a notification has to do; a new one starts from the cache. */
  lemma StepNotes(c: Config, e: State, s: Step, m: nat)
    requires m < |Next(c, e, s).notes|
    ensures var e' := Next(c, e, s);
      if m < |e.notes| then e'.notes[m].todo <= e.notes[m].todo
      else s.NotifyBegin? && e'.notes[m].todo == Watching(e, s.channel)
  {
    if Enabled(c, e, s) {
      match s
      case NotifyStep(n, o, hit) => VisitFrame(e, n, o, hit);
      case NotifyBegin(_, _, _, _) =>
      case FlushDebounced(_) => assert Next(c, e, s).notes == e.notes;
      case Answer(_, _) => assert Next(c, e, s).notes == e.notes;
      case Record(_, _) => assert Next(c, e, s).notes == e.notes;
      case _ => assert Next(c, e, s).notes == e.notes;
    }
  }

  lemma StepCacheOut(c: Config, e: State, s: Step, id: Id)
    requires id !in e.cache && !(s.Install? && s.rules.id == id)
    ensures id !in Next(c, e, s).cache
  {
    if Enabled(c, e, s) {
      match s
      case NotifyStep(n, o, hit) => VisitFrame(e, n, o, hit);
      case _ =>
    }
  }

  lemma StepKeepsOut(c: Config, e: State, s: Step, n: nat, id: Id)
    requires CacheOk(e) && id !in e.cache && !(s.Install? && s.rules.id == id) && NotVisited(e, n, id)
    ensures id !in Next(c, e, s).cache && NotVisited(Next(c, e, s), n, id)
  {
    var e' := Next(c, e, s);
    StepCacheOut(c, e, s, id);
    StepExtends(c, e, s);
    forall m | n <= m < |e'.notes| ensures NoVersionOf(e', e'.notes[m].todo, id) {
      StepNotes(c, e, s, m);
      if m < |e.notes| {
        assert NoVersionOf(e, e.notes[m].todo, id);
      } else {
        assert NoVersionOf(e, Watching(e, s.channel), id);
      }
    }
  }

  /**
   Once auto-disable has run for an object, its id stays out of the cache, and no Notify that begins
   afterwards visits any version of it, until the id is added again. One already under way still may.
   */
  lemma {:induction false} DisabledStaysOut(c: Config, before: seq<Step>, i: nat, rest: seq<Step>, id: Id)
    requires Enabled(c, After(c, before), AutoDisable(i))
    requires var e := After(c, before); id == e.objs[e.dueDisables[i]].rules.id
    requires forall k :: 0 <= k < |rest| ==> !(rest[k].Install? && rest[k].rules.id == id)
    ensures var e := After(c, before + [AutoDisable(i)] + rest);
      id !in e.cache && NotVisited(e, |After(c, before).notes|, id)
  {
    var steps := before + [AutoDisable(i)] + rest;
    if rest == [] {
      assert steps == before + [AutoDisable(i)];
      AfterSnoc(c, before, AutoDisable(i));
    } else {
      var most, s := rest[..|rest| - 1], rest[|rest| - 1];
      DisabledStaysOut(c, before, i, most, id);
      assert steps == before + [AutoDisable(i)] + most + [s];
      AfterSnoc(c, before + [AutoDisable(i)] + most, s);
      AlwaysWellFormed(c, before + [AutoDisable(i)] + most);
      StepKeepsOut(c, After(c, before + [AutoDisable(i)] + most), s, |After(c, before).notes|, id);
    }
  }
}
