/**
 When a match is accepted (internal/webhook/manager.go, Notify and handleMatch), said in terms of the
 run: which subscriptions a notification visits, what was drained from them and what has succeeded today.
 */
module EngineAccept {
  import opened Base
  import opened Subscription
  import opened Engine
  import opened EngineTiming
  import opened EngineBudget

  /** A notification is to visit exactly the cached versions whose subscription is on its channel. */
  lemma NotifySeesChannel(c: Config, steps: seq<Step>, channel: Id, name: string, body: string, context: seq<Entry>)
    ensures var e, e' := After(c, steps), After(c, steps + [NotifyBegin(channel, name, body, context)]);
      && |e'.notes| == |e.notes| + 1
      && e'.notes[|e.notes|].ev == Event(channel, name, Entry(body, |e.notes|), context)
      && (forall o :: o in e'.notes[|e.notes|].todo <==>
            exists id :: id in e.cache && e.cache[id] == o && o < |e.objs| && e.objs[o].rules.channel == channel)
      && (forall bot: Id :: bot in e'.notes[|e.notes|].paused <==> (channel, bot) in e.pauses)
  {
    var e, s := After(c, steps), NotifyBegin(channel, name, body, context);
    AfterSnoc(c, steps, s);
    forall bot: Id ensures bot in PausedOn(e.pauses, channel) <==> (channel, bot) in e.pauses {
      if (channel, bot) in e.pauses { assert (channel, bot).0 == channel; }
    }
  }

  /** The last fire of an object is the time of its latest drain. */
  ghost predicate LastFireIsDrain(e: State, o: nat)
    requires o < |e.objs|
  {
    e.objs[o].rt.lastFire.Some? ==>
      exists i :: 0 <= i < |e.tasks| && e.tasks[i].obj == o && e.tasks[i].at == e.objs[o].rt.lastFire.value
  }

  lemma KeepsDrain(e: State, e': State, o: nat)
    requires o < |e.objs| && o < |e'.objs| && LastFireIsDrain(e, o)
    requires e'.objs[o].rt.lastFire == e.objs[o].rt.lastFire && e.tasks <= e'.tasks
    ensures LastFireIsDrain(e', o)
  {
    if e.objs[o].rt.lastFire.Some? {
      var i :| 0 <= i < |e.tasks| && e.tasks[i].obj == o && e.tasks[i].at == e.objs[o].rt.lastFire.value;
      assert e'.tasks[i] == e.tasks[i];
    }
  }

  lemma LoudLastFire(c: Config, e: State, s: Step)
    requires Loud(s) && s.o < |e.objs| && Timed(e, s.o)
    ensures var e' := Next(c, e, s);
      && s.o < |e'.objs|
      && (|e'.tasks| == |e.tasks| ==> e'.objs[s.o].rt.lastFire == e.objs[s.o].rt.lastFire)
  {
    if Enabled(c, e, s) && s.NotifyStep? { VisitFrame(e, s.n, s.o, s.hit); }
  }

  lemma {:induction false} AlwaysLastFire(c: Config, steps: seq<Step>, o: nat)
    requires o < |After(c, steps).objs|
    ensures LastFireIsDrain(After(c, steps), o)
  {
    if steps != [] {
      var before, s := steps[..|steps| - 1], steps[|steps| - 1];
      var e, e' := After(c, before), After(c, steps);
      StepExtends(c, e, s);
      if o >= |e.objs| {
        if Loud(s) {
          if Enabled(c, e, s) && s.NotifyStep? { VisitFrame(e, s.n, s.o, s.hit); }
        } else {
          StepQuiet(c, e, s);
        }
      } else {
        AlwaysLastFire(c, before, o);
        AlwaysTimed(c, before, o);
        LastFireStep(c, e, s, o);
      }
    }
  }

  lemma LastFireStep(c: Config, e: State, s: Step, o: nat)
    requires o < |e.objs| && LastFireIsDrain(e, o) && Timed(e, o)
    ensures o < |Next(c, e, s).objs| && LastFireIsDrain(Next(c, e, s), o)
  {
    var e' := Next(c, e, s);
    StepExtends(c, e, s);
    if !Loud(s) {
      StepQuiet(c, e, s);
      assert Quiet(e.objs[o], e'.objs[o]);
      KeepsDrain(e, e', o);
    } else if s.o != o {
      StepLoudElsewhere(c, e, s, o);
      KeepsDrain(e, e', o);
    } else if |e'.tasks| > |e.tasks| {
      NewestTask(c, e, s);
      assert e'.tasks[|e.tasks|].obj == o;
    } else {
      LoudLastFire(c, e, s);
      KeepsDrain(e, e', o);
    }
  }

  /** Every drain of object o lies at least its cooldown back. */
  ghost predicate CooledDown(e: State, o: nat)
    requires o < |e.objs|
  {
    forall i :: 0 <= i < |e.tasks| && e.tasks[i].obj == o ==> e.now - e.tasks[i].at >= Millis(e.objs[o].rules.cooldownMs)
  }

  lemma CoolingIff(c: Config, steps: seq<Step>, o: nat)
    requires var e := After(c, steps); o < |e.objs| && e.objs[o].rules.cooldownMs > 0
    ensures var e := After(c, steps);
      var x := e.objs[o];
      CooledDown(e, o) <==> !(x.rt.lastFire.Some? && e.now - x.rt.lastFire.value < Millis(x.rules.cooldownMs))
  {
    var e := After(c, steps);
    AlwaysLastFire(c, steps, o);
    forall i | 0 <= i < |e.tasks| && e.tasks[i].obj == o
      ensures e.objs[o].rt.lastFire.Some? && e.tasks[i].at <= e.objs[o].rt.lastFire.value
    {
      AlwaysTaskTimed(c, steps, i);
    }
  }

  lemma AcceptAdds(e: State, o: nat, ev: Event<Entry>)
    requires o < |e.objs|
    ensures var x, e' := e.objs[o], Accept(e, o, ev);
      var cooling := x.rules.cooldownMs > 0 && x.rt.lastFire.Some? && e.now - x.rt.lastFire.value < Millis(x.rules.cooldownMs);
      var exhausted := x.rules.dailyMax > 0 && OkSince(e.rows, x.rules.id, DayStart(e.now)) >= x.rules.dailyMax;
      |e'.objs| == |e.objs| && e'.objs[o].accepted == if cooling || exhausted then x.accepted else x.accepted + [ev.item]
  {
  }

  /**
   In every run a match that a notification brings to a subscription it did not see paused is accepted if
   and only if every drain of that compiled subscription lies at least its cooldown back and today's
   successes are below its cap, as far as it has a cooldown and a cap. Otherwise nothing is accepted.
   */
  lemma HitAcceptedIff(c: Config, steps: seq<Step>, n: nat, o: nat)
    requires var e := After(c, steps);
      && Enabled(c, e, NotifyStep(n, o, true)) && e.objs[o].rules.account !in e.notes[n].paused
    ensures var e, e' := After(c, steps), After(c, steps + [NotifyStep(n, o, true)]);
      var x := e.objs[o];
      var fits := (x.rules.cooldownMs > 0 ==> CooledDown(e, o))
        && (x.rules.dailyMax > 0 ==> OkOnDay(e.rows, x.rules.id, DayOf(e.now)) < x.rules.dailyMax);
      o < |e'.objs| && e'.objs[o].accepted == if fits then x.accepted + [e.notes[n].ev.item] else x.accepted
  {
    var e := After(c, steps);
    var x := e.objs[o];
    AfterSnoc(c, steps, NotifyStep(n, o, true));
    if x.rules.cooldownMs > 0 { CoolingIff(c, steps, o); }
    RowsInThePast(c, steps);
    QueryCountsToday(e.rows, x.rules.id, e.now);
    AcceptAdds(e.(notes := e.notes[n := e.notes[n].(todo := e.notes[n].todo - {o})]), o, e.notes[n].ev);
  }

  /** A cooldown of so many milliseconds is over that many million nanoseconds after the last drain. */
  lemma AcceptedAfterCooldown(c: Config, steps: seq<Step>, n: nat, o: nat)
    requires var e := After(c, steps);
      && Enabled(c, e, NotifyStep(n, o, true)) && e.objs[o].rules.account !in e.notes[n].paused
      && 0 < e.objs[o].rules.cooldownMs <= 9_223_372_036_854 && e.objs[o].rules.dailyMax <= 0
      && forall i :: 0 <= i < |e.tasks| && e.tasks[i].obj == o ==> e.now >= e.tasks[i].at + e.objs[o].rules.cooldownMs * 1_000_000
    ensures var e, e' := After(c, steps), After(c, steps + [NotifyStep(n, o, true)]);
      o < |e'.objs| && e'.objs[o].accepted == e.objs[o].accepted + [e.notes[n].ev.item]
  {
    MillisExact(After(c, steps).objs[o].rules.cooldownMs);
    HitAcceptedIff(c, steps, n, o);
  }
}
