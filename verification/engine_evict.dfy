/**
 What becomes of an open window when its subscription is updated, removed or auto-disabled
 (internal/webhook/manager.go, AddOrUpdate and Remove; internal/webhook/worker.go, autoDisable).
 */
module EngineEvict {
  import opened Base
  import opened Subscription
  import opened Engine
  import opened EngineTiming

  /** The step replaces or removes the cached version of id. */
  predicate Evicts(c: Config, e: State, s: Step, id: Id) {
    && id in e.cache && Enabled(c, e, s)
    && match s
       case Install(rules) => rules.id == id
       case Remove(r) => r == id
       case AutoDisable(i) => e.objs[e.dueDisables[i]].rules.id == id
       case _ => false
  }

  ghost predicate CachedNotStopped(e: State) {
    forall id :: id in e.cache ==> e.cache[id] < |e.objs| && e.objs[e.cache[id]].rt.timer != Stopped
  }

  lemma EvictKeepsOthers(e: State, id: Id)
    requires CacheOk(e) && CachedNotStopped(e)
    ensures CachedNotStopped(Evict(e, id))
    ensures forall other :: other in e.cache && other != id ==>
      e.cache[other] < |e.objs| && StopCached(e, id)[e.cache[other]] == e.objs[e.cache[other]]
  {
    forall other | other in e.cache && other != id
      ensures e.cache[other] < |e.objs| && StopCached(e, id)[e.cache[other]] == e.objs[e.cache[other]]
    {
      if id in e.cache {
        assert e.objs[e.cache[id]].rules.id == id && e.objs[e.cache[other]].rules.id == other;
      }
    }
  }

  lemma StepCachedNotStopped(c: Config, e: State, s: Step)
    requires CacheOk(e) && CachedNotStopped(e)
    ensures CachedNotStopped(Next(c, e, s))
  {
    if Enabled(c, e, s) {
      match s
      case Install(rules) => EvictKeepsOthers(e, rules.id);
      case Remove(id) => EvictKeepsOthers(e, id);
      case AutoDisable(i) =>
        EvictKeepsOthers(e.(dueDisables := Without(e.dueDisables, i)), e.objs[e.dueDisables[i]].rules.id);
      case NotifyStep(n, o, hit) => VisitNotStopped(e, n, o, hit);
      case FlushDebounced(_) =>
      case Answer(_, _) =>
      case Record(_, _) =>
      case _ =>
    }
  }

  lemma VisitNotStopped(e: State, n: nat, o: nat, hit: bool)
    requires n < |e.notes| && o < |e.objs| && CachedNotStopped(e)
    ensures CachedNotStopped(Visit(e, n, o, hit))
  {
    VisitFrame(e, n, o, hit);
    assert e.objs[o].rt.timer != Stopped ==> Visit(e, n, o, hit).objs[o].rt.timer != Stopped;
  }

  /** A cached subscription's timer has never been stopped. */
  lemma {:induction false} AlwaysCachedNotStopped(c: Config, steps: seq<Step>)
    ensures CachedNotStopped(After(c, steps))
  {
    if steps != [] {
      AlwaysWellFormed(c, steps[..|steps| - 1]);
      AlwaysCachedNotStopped(c, steps[..|steps| - 1]);
      StepCachedNotStopped(c, After(c, steps[..|steps| - 1]), steps[|steps| - 1]);
    }
  }

  /** However the run goes on, no further task is drained from object o. */
  ghost predicate NeverDrains(c: Config, steps: seq<Step>, o: nat) {
    forall rest, i :: |After(c, steps).tasks| <= i < |After(c, steps + rest).tasks| ==>
      After(c, steps + rest).tasks[i].obj != o
  }

  lemma EvictionStops(c: Config, e: State, s: Step, id: Id)
    requires CacheOk(e) && Evicts(c, e, s, id)
    ensures var o, e' := e.cache[id], Next(c, e, s);
      && o < |e.objs| && o < |e'.objs| && e'.tasks == e.tasks
      && e'.objs[o] == e.objs[o].(rt := e.objs[o].rt.(timer := e.objs[o].rt.timer.Stop()))
  {
  }

  lemma FlushDrains(c: Config, e: State, o: nat)
    requires o < |e.objs| && e.objs[o].rt.timer.Fired? && e.objs[o].rt.pending != []
    ensures var e' := Next(c, e, FlushDebounced(o)); |e'.tasks| == |e.tasks| + 1 && e'.tasks[|e.tasks|].obj == o
  {
  }

  lemma FiredWindowDrains(c: Config, steps: seq<Step>, o: nat)
    requires var e := After(c, steps); o < |e.objs| && e.objs[o].rt.timer.Fired? && e.objs[o].rt.pending != []
    ensures !NeverDrains(c, steps, o)
  {
    var rest := [FlushDebounced(o)];
    AfterSnoc(c, steps, FlushDebounced(o));
    FlushDrains(c, After(c, steps), o);
    assert |After(c, steps).tasks| < |After(c, steps + rest).tasks|;
  }

  lemma StoppedNeverDrains(c: Config, steps: seq<Step>, o: nat)
    requires var e := After(c, steps); o < |e.objs| && e.objs[o].rt.timer == Stopped
    ensures NeverDrains(c, steps, o)
  {
    forall rest, i | |After(c, steps).tasks| <= i < |After(c, steps + rest).tasks|
      ensures After(c, steps + rest).tasks[i].obj != o
    {
      StoppedWindowNeverDrains(c, steps, rest, o);
    }
  }

  /**
   Updating, removing or auto-disabling a subscription with pending matches loses them for good if and
   only if its timer is still armed; one that has fired and waits for the lock still flushes.
   */
  lemma EvictionLosesWindowIff(c: Config, steps: seq<Step>, s: Step, id: Id)
    requires Evicts(c, After(c, steps), s, id)
    requires var e := After(c, steps); e.cache[id] < |e.objs| && e.objs[e.cache[id]].rt.pending != []
    ensures var e := After(c, steps);
      NeverDrains(c, steps + [s], e.cache[id]) <==> e.objs[e.cache[id]].rt.timer.Armed?
  {
    var e := After(c, steps);
    var o := e.cache[id];
    AlwaysWellFormed(c, steps);
    AlwaysTimed(c, steps, o);
    AlwaysCachedNotStopped(c, steps);
    AfterSnoc(c, steps, s);
    EvictionStops(c, e, s, id);
    if e.objs[o].rt.timer.Armed? {
      StoppedNeverDrains(c, steps + [s], o);
    } else {
      FiredWindowDrains(c, steps + [s], o);
    }
  }

  const DEBOUNCED := Rules(7, 1, 2, 3, "u", "s", "{}", 0, 1000, 0, 0)

  lemma OpensWindow(c: Config, e: State)
    requires |e.objs| == 1 && e.objs[0] == Compiled(DEBOUNCED) && e.cache == map[7 := 0] && e.pauses == {} && e.tasks == []
    ensures var e1 := Next(c, e, NotifyBegin(3, "ops", "a", []));
      var e2 := Next(c, e1, NotifyStep(|e.notes|, 0, true));
      && e2.cache == e.cache && |e2.objs| == 1 && e2.objs[0].rt.timer.Armed? && e2.tasks == []
      && e2.objs[0].rt.pending == e2.objs[0].accepted == [] + [Entry("a", |e.notes|)]
  {
    assert e.cache[7] == 0 && 0 in Watching(e, 3);
    var e1 := Next(c, e, NotifyBegin(3, "ops", "a", []));
    assert e1.notes[|e.notes|].todo == Watching(e, 3) && e1.notes[|e.notes|].paused == {};
    assert VerdictOf(e1, 0) == Opened;
  }

  /** A run in which a match is accepted and, after a removal, never delivered. */
  lemma AcceptedMatchLost(c: Config) returns (steps: seq<Step>)
    ensures var e := After(c, steps);
      && |e.objs| == 1 && e.tasks == [] && |e.objs[0].accepted| == 1
      && NeverDrains(c, steps, 0)
  {
    var a, b, d := Install(DEBOUNCED), NotifyBegin(3, "ops", "a", []), NotifyStep(0, 0, true);
    AfterSnoc(c, [], a);
    AfterSnoc(c, [] + [a], b);
    AfterSnoc(c, [] + [a] + [b], d);
    OpensWindow(c, After(c, [] + [a]));
    var before := [] + [a] + [b] + [d];
    AfterSnoc(c, before, Remove(7));
    EvictionLosesWindowIff(c, before, Remove(7), 7);
    steps := before + [Remove(7)];
  }
}
