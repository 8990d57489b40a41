/**
 Channel-operator pauses over whole runs (internal/webhook/manager.go, SetBotPaused, Notify and
 recordPausedFire).
 */
module EnginePause {
  import opened Base
  import opened Engine
  import opened EngineConservation

  /** Notifications are only ever added, and their event and pause snapshot never change. */
  ghost predicate NotesKept(e: State, e': State) {
    && |e.notes| <= |e'.notes|
    && forall n :: 0 <= n < |e.notes| ==>
         e'.notes[n].ev == e.notes[n].ev && e'.notes[n].paused == e.notes[n].paused
  }

  lemma StepNotesKept(c: Config, e: State, s: Step)
    ensures NotesKept(e, Next(c, e, s))
    ensures forall n :: |e.notes| <= n < |Next(c, e, s).notes| ==>
              n == |e.notes| && Next(c, e, s).notes[n].paused == PausedOn(e.pauses, Next(c, e, s).notes[n].ev.channel)
  {
    if Enabled(c, e, s) {
      match s
      case NotifyStep(n, o, hit) => VisitFrame(e, n, o, hit);
      case FlushDebounced(o) => assert Next(c, e, s).notes == e.notes;
      case Answer(_, _) => assert Next(c, e, s).notes == e.notes;
      case Record(_, _) => assert Next(c, e, s).notes == e.notes;
      case _ =>
    }
  }

  /** The k-th match object o accepted came on its channel, from a Notify that did not see it paused. */
  ghost predicate Unpaused(e: State, o: nat, k: nat)
    requires o < |e.objs| && k < |e.objs[o].accepted|
  {
    var n, r := e.objs[o].accepted[k].note, e.objs[o].rules;
    n < |e.notes| && r.account !in e.notes[n].paused && r.channel == e.notes[n].ev.channel
  }

  /** Only a visit by a Notify that did not see the bot paused adds to what an object accepted. */
  lemma StepAccepted(c: Config, e: State, s: Step, o: nat)
    requires o < |e.objs|
    ensures var e' := Next(c, e, s);
      && o < |e'.objs| && e'.objs[o].rules == e.objs[o].rules
      && (e'.objs[o].accepted == e.objs[o].accepted
          || (s.NotifyStep? && Enabled(c, e, s) && s.o == o
              && e.objs[o].rules.account !in e.notes[s.n].paused
              && e'.objs[o].accepted == e.objs[o].accepted + [e.notes[s.n].ev.item]))
  {
    StepExtends(c, e, s);
    if !Loud(s) {
      StepQuiet(c, e, s);
      assert Quiet(e.objs[o], Next(c, e, s).objs[o]);
    } else if s.o != o {
      StepLoudElsewhere(c, e, s, o);
    }
  }

  lemma StepUnpaused(c: Config, e: State, s: Step, o: nat, k: nat)
    requires WellFormed(c, e) && o < |e.objs| && o < |Next(c, e, s).objs|
    requires k < |Next(c, e, s).objs[o].accepted|
    requires k < |e.objs[o].accepted| ==> Unpaused(e, o, k)
    ensures Unpaused(Next(c, e, s), o, k)
  {
    StepNotesKept(c, e, s);
    StepAccepted(c, e, s, o);
    if k >= |e.objs[o].accepted| {
      assert NoteOk(e, s.n);
    }
  }

  /** Every match an object ever accepted came from a Notify that began while its bot was not paused there. */
  lemma {:induction false} AcceptedUnpaused(c: Config, steps: seq<Step>, o: nat, k: nat)
    requires o < |After(c, steps).objs| && k < |After(c, steps).objs[o].accepted|
    ensures Unpaused(After(c, steps), o, k)
  {
    if steps != [] {
      var before, s := steps[..|steps| - 1], steps[|steps| - 1];
      var e := After(c, before);
      AlwaysWellFormed(c, before);
      if o < |e.objs| {
        if k < |e.objs[o].accepted| { AcceptedUnpaused(c, before, o, k); }
        StepUnpaused(c, e, s, o, k);
      } else if Loud(s) {
        if Enabled(c, e, s) && s.NotifyStep? { VisitFrame(e, s.n, s.o, s.hit); }
      } else {
        StepQuiet(c, e, s);
      }
    }
  }

  /** No step of the list lifts the pause of bot on channel or reloads the pause set. */
  ghost predicate NeverLifted(steps: seq<Step>, channel: Id, bot: Id) {
    forall k :: 0 <= k < |steps| ==> steps[k] != SetPaused(channel, bot, false) && !steps[k].ClearCache?
  }

  /** Notifications of channel numbered from n on all see bot paused. */
  ghost predicate SeePaused(e: State, n: nat, channel: Id, bot: Id) {
    forall i :: n <= i < |e.notes| && e.notes[i].ev.channel == channel ==> bot in e.notes[i].paused
  }

  lemma StepSeePaused(c: Config, e: State, s: Step, n: nat, channel: Id, bot: Id)
    requires (channel, bot) in e.pauses && SeePaused(e, n, channel, bot)
    requires s != SetPaused(channel, bot, false) && !s.ClearCache?
    ensures (channel, bot) in Next(c, e, s).pauses && SeePaused(Next(c, e, s), n, channel, bot)
  {
    StepNotesKept(c, e, s);
    StepPauses(c, e, s);
    var e' := Next(c, e, s);
    forall i | n <= i < |e'.notes| && e'.notes[i].ev.channel == channel ensures bot in e'.notes[i].paused {
      if i >= |e.notes| {
        assert (channel, bot) in e.pauses && (channel, bot).0 == channel;
        assert bot in PausedOn(e.pauses, channel);
      }
    }
  }

  lemma StepPauses(c: Config, e: State, s: Step)
    ensures !s.SetPaused? && !s.ClearCache? ==> Next(c, e, s).pauses == e.pauses
  {
    if Enabled(c, e, s) {
      match s
      case NotifyStep(n, o, hit) => VisitFrame(e, n, o, hit);
      case _ =>
    }
  }

  lemma {:induction false} PausedThroughout(c: Config, before: seq<Step>, rest: seq<Step>, channel: Id, bot: Id)
    requires (channel, bot) in After(c, before).pauses && NeverLifted(rest, channel, bot)
    ensures var e := After(c, before + rest);
      (channel, bot) in e.pauses && SeePaused(e, |After(c, before).notes|, channel, bot)
  {
    if rest == [] {
      assert before + rest == before;
    } else {
      var most, s := rest[..|rest| - 1], rest[|rest| - 1];
      PausedThroughout(c, before, most, channel, bot);
      assert before + rest == before + most + [s];
      AfterSnoc(c, before + most, s);
      StepSeePaused(c, After(c, before + most), s, |After(c, before).notes|, channel, bot);
    }
  }

  /** What a task holds, its object accepted. */
  lemma {:induction false} DrainedHas(tasks: seq<Task>, i: nat, x: Entry)
    requires i < |tasks| && x in tasks[i].batch.matches
    ensures x in DrainedMatches(tasks, tasks[i].obj)
  {
    if i < |tasks| - 1 {
      DrainedHas(tasks[..|tasks| - 1], i, x);
    }
  }

  /** The last step that says anything about bot on channel pauses it. */
  predicate LastPauses(steps: seq<Step>, channel: Id, bot: Id) {
    steps != [] &&
    match steps[|steps| - 1]
    case SetPaused(ch, b, on) =>
      if ch == channel && b == bot then on else LastPauses(steps[..|steps| - 1], channel, bot)
    case ClearCache(paused) => (channel, bot) in paused
    case _ => LastPauses(steps[..|steps| - 1], channel, bot)
  }

  /** In every run the bots paused are those that the last verb, or the last reload since, left paused. */
  lemma {:induction false} PausedIff(c: Config, steps: seq<Step>, channel: Id, bot: Id)
    ensures (channel, bot) in After(c, steps).pauses <==> LastPauses(steps, channel, bot)
  {
    if steps != [] {
      PausedIff(c, steps[..|steps| - 1], channel, bot);
      StepPauses(c, After(c, steps[..|steps| - 1]), steps[|steps| - 1]);
    }
  }

  /**
   Pause safety: from the moment a bot is paused on a channel until the pause is lifted, no
   Notify begun in between adds a match to a subscription of that bot on that channel, and every
   task drained from one holds only matches whose Notify began before the pause.
   */
  lemma PauseKeepsNewMatchesOut(c: Config, before: seq<Step>, rest: seq<Step>, channel: Id, bot: Id, o: nat)
    requires (channel, bot) in After(c, before).pauses && NeverLifted(rest, channel, bot)
    requires var e := After(c, before + rest);
      o < |e.objs| && e.objs[o].rules.account == bot && e.objs[o].rules.channel == channel
    ensures var e, n := After(c, before + rest), |After(c, before).notes|;
      && (forall x :: x in e.objs[o].accepted ==> x.note < n)
      && (forall i, x :: 0 <= i < |e.tasks| && e.tasks[i].obj == o && x in e.tasks[i].batch.matches ==> x.note < n)
  {
    var e, n := After(c, before + rest), |After(c, before).notes|;
    PausedThroughout(c, before, rest, channel, bot);
    forall x | x in e.objs[o].accepted ensures x.note < n {
      var k :| 0 <= k < |e.objs[o].accepted| && e.objs[o].accepted[k] == x;
      AcceptedUnpaused(c, before + rest, o, k);
    }
    ObjectConserved(c, before + rest, o);
    forall i, x | 0 <= i < |e.tasks| && e.tasks[i].obj == o && x in e.tasks[i].batch.matches
      ensures x.note < n
    {
      DrainedHas(e.tasks, i, x);
      assert x in e.objs[o].accepted;
    }
  }

  /**
   A match that a Notify brings to a bot it saw paused leaves the subscription untouched, drains
   nothing and writes one paused row, which the budget query does not count.
   */
  lemma PausedMatchOnlyRecorded(c: Config, e: State, n: nat, o: nat)
    requires Enabled(c, e, NotifyStep(n, o, true)) && e.objs[o].rules.account in e.notes[n].paused
    ensures var e' := Next(c, e, NotifyStep(n, o, true));
      && e'.objs == e.objs && e'.tasks == e.tasks && e'.pool == e.pool
      && e'.rows == e.rows + [Row(e.objs[o].rules.id, e.now, StatusPaused, 0, None)]
      && forall sub, since :: OkSince(e'.rows, sub, since) == OkSince(e.rows, sub, since)
  {
    var r := Row(e.objs[o].rules.id, e.now, StatusPaused, 0, None);
    forall sub, since ensures OkSince(e.rows + [r], sub, since) == OkSince(e.rows, sub, since) {
      assert (e.rows + [r])[..|e.rows|] == e.rows;
    }
  }

  function PausedRows(rows: seq<Row>, sub: Id): nat {
    if rows == [] then 0
    else
      var r := rows[|rows| - 1];
      PausedRows(rows[..|rows| - 1], sub) + if r.sub == sub && r.status == StatusPaused then 1 else 0
  }

  /** The step brings a match to a version of sub that its notification saw paused. */
  predicate Suppressed(c: Config, e: State, s: Step, sub: Id) {
    && s.NotifyStep? && Enabled(c, e, s) && s.hit
    && e.objs[s.o].rules.id == sub && e.objs[s.o].rules.account in e.notes[s.n].paused
  }

  function SuppressedIn(c: Config, steps: seq<Step>, sub: Id): nat {
    if steps == [] then 0
    else
      var before, s := steps[..|steps| - 1], steps[|steps| - 1];
      SuppressedIn(c, before, sub) + if Suppressed(c, After(c, before), s, sub) then 1 else 0
  }

  lemma PausedAppend(rows: seq<Row>, r: Row, sub: Id)
    ensures PausedRows(rows + [r], sub) == PausedRows(rows, sub) + if r.sub == sub && r.status == StatusPaused then 1 else 0
  {
    assert (rows + [r])[..|rows|] == rows;
  }

  lemma VisitPausedRows(c: Config, e: State, s: Step, sub: Id)
    requires s.NotifyStep? && Enabled(c, e, s)
    ensures PausedRows(Next(c, e, s).rows, sub) == PausedRows(e.rows, sub) + if Suppressed(c, e, s, sub) then 1 else 0
  {
    var x, now := e.objs[s.o], e.now;
    PausedAppend(e.rows, Row(x.rules.id, now, StatusPaused, 0, None), sub);
    PausedAppend(e.rows, Row(x.rules.id, now, StatusBudgetExhausted, 0, None), sub);
    VisitRows(e, s.n, s.o, s.hit);
  }

  lemma VisitRows(e: State, n: nat, o: nat, hit: bool)
    requires n < |e.notes| && o < |e.objs|
    ensures var x, rows := e.objs[o], Visit(e, n, o, hit).rows;
      if hit && x.rules.account in e.notes[n].paused then rows == e.rows + [Row(x.rules.id, e.now, StatusPaused, 0, None)]
      else rows == e.rows || rows == e.rows + [Row(x.rules.id, e.now, StatusBudgetExhausted, 0, None)]
  {
  }

  lemma RecordPausedRows(c: Config, e: State, s: Step, sub: Id)
    requires s.Record? && Enabled(c, e, s)
    ensures PausedRows(Next(c, e, s).rows, sub) == PausedRows(e.rows, sub)
  {
    PausedAppend(e.rows, ReportOf(e.pool.outcomes[s.j], e.now, s.attempts), sub);
  }

  lemma StepPausedRows(c: Config, e: State, s: Step, sub: Id)
    ensures PausedRows(Next(c, e, s).rows, sub) == PausedRows(e.rows, sub) + if Suppressed(c, e, s, sub) then 1 else 0
  {
    if Enabled(c, e, s) && s.NotifyStep? {
      VisitPausedRows(c, e, s, sub);
    } else if Enabled(c, e, s) && s.Record? {
      RecordPausedRows(c, e, s, sub);
    } else {
      assert Next(c, e, s).rows == e.rows;
    }
  }

  /** In every run a subscription has exactly one paused row for each match that a pause kept from it. */
  lemma {:induction false} PausedRowsCounted(c: Config, steps: seq<Step>, sub: Id)
    ensures PausedRows(After(c, steps).rows, sub) == SuppressedIn(c, steps, sub)
  {
    if steps != [] {
      PausedRowsCounted(c, steps[..|steps| - 1], sub);
      StepPausedRows(c, After(c, steps[..|steps| - 1]), steps[|steps| - 1], sub);
    }
  }
}
