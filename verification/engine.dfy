/**
 The webhook dispatch engine as a step machine: the manager's cache and pause set, every
 compiled subscription, notifications in flight, the bounded task queue and its workers.

 Each step is one region the source runs under a lock (or one channel operation), so a run
 is any interleaving of them. A step that is not enabled leaves the state alone, hence every
 sequence of steps is a run. The fields accepted, openedAt, endings, disables, tasks,
 overflow and discarded only record history; no step's effect on the others depends on them.
 */
module Engine {
  import opened Base
  import opened Subscription

  datatype Config = Config(workers: nat, queueDepth: nat, threshold: int)

  /** One match: what was said, and the number of the Notify call that carried it. */
  datatype Entry = Entry(body: string, note: nat)

  /** How one delivery ends: accepted, refused for good, or out of retries. */
  datatype Ending = Delivered | Refused | GaveUp

  datatype Status = StatusOk | StatusDropped4xx | StatusFailed | StatusBudgetExhausted | StatusPaused

  /** A compiled subscription. Recompiling one makes a new object with a fresh runtime. */
  datatype Live = Live(
    rules: Rules, rt: Runtime<Entry>, consec: nat,
    accepted: seq<Entry>, openedAt: int, endings: seq<Ending>, disables: seq<nat>)

  datatype Task = Task(no: nat, sub: Id, obj: nat, batch: Batch<Entry>, openedAt: int, at: int)

  /** A row of subscription_fires; task is the delivery it reports, if any. */
  datatype Row = Row(sub: Id, at: int, status: Status, attempts: int, task: Option<Task>)

  /** A Notify call: its event, its snapshot of the pause set, the objects still to visit. */
  datatype Note = Note(ev: Event<Entry>, paused: set<Id>, todo: set<nat>)

  /** A delivery whose end is known and whose row is still to be written; disable is the verdict. */
  datatype Outcome = Outcome(task: Task, ending: Ending, disable: bool)

  /**
   The worker pool. A task is held between its drain and the enqueue call, queued in the
   bounded channel, then in the hands of a busy worker, and an outcome until its row is written.
   A worker that has written its row counts as idle, although it may still have to auto-disable.
   */
  datatype Pool = Pool(
    held: seq<Task>, queue: seq<Task>, busy: seq<Task>, outcomes: seq<Outcome>, idle: nat,
    started: bool, stopping: bool, overflow: seq<Task>, discarded: seq<Task>)

  datatype PoolMove = Start | Enqueue(i: nat) | Take | Stop | WorkerExits

  datatype State = State(
    now: int,
    objs: seq<Live>,
    cache: map<Id, nat>,
    pauses: set<(Id, Id)>,
    notes: seq<Note>,
    tasks: seq<Task>,
    pool: Pool,
    rows: seq<Row>,
    dueDisables: seq<nat>)

  datatype Step =
    | Tick(to: int)
    | Install(rules: Rules)                 // AddOrUpdate, or one row of a Reload
    | Remove(id: Id)
    | ClearCache(paused: set<(Id, Id)>)     // start of a Reload: old objects keep their timers
    | SetPaused(channel: Id, bot: Id, on: bool)
    | NotifyBegin(channel: Id, channelName: string, body: string, context: seq<Entry>)
    | NotifyStep(n: nat, o: nat, hit: bool) // one iteration of Notify's loop; hit is the matcher's answer
    | TimerFires(o: nat)
    | FlushDebounced(o: nat)
    | PoolStep(move: PoolMove)
    | Answer(i: nat, ending: Ending)        // a delivery ends, and the failure counter follows under the lock
    | Record(j: nat, attempts: int)         // its fire row is written, after the lock is released
    | AutoDisable(i: nat)

  function Init(): State {
    State(0, [], map[], {}, [], [], Pool([], [], [], [], 0, false, false, [], []), [], [])
  }

  function DayOf(t: int): int { t / DAY }

  function DayStart(t: int): int { t - t % DAY }

  /** CountSubscriptionFiresSince: rows of sub at or after since that count against the budget. */
  function OkSince(rows: seq<Row>, sub: Id, since: int): nat {
    if rows == [] then 0
    else
      var r := rows[|rows| - 1];
      OkSince(rows[..|rows| - 1], sub, since)
      + if r.sub == sub && r.at >= since && r.status == StatusOk then 1 else 0
  }

  function StopTimerOf(objs: seq<Live>, o: nat): seq<Live> {
    if o < |objs| then objs[o := objs[o].(rt := objs[o].rt.(timer := objs[o].rt.timer.Stop()))] else objs
  }

  function StopCached(e: State, id: Id): seq<Live> {
    if id in e.cache then StopTimerOf(e.objs, e.cache[id]) else e.objs
  }

  function Evict(e: State, id: Id): State {
    e.(objs := StopCached(e, id), cache := e.cache - {id})
  }

  function Compiled(rules: Rules): Live {
    Live(rules, Fresh(), 0, [], 0, [], [])
  }

  /** The objects that Notify's snapshot holds for a channel. */
  function Watching(e: State, channel: Id): set<nat> {
    set id | id in e.cache && e.cache[id] < |e.objs| && e.objs[e.cache[id]].rules.channel == channel
      :: e.cache[id]
  }

  function PausedOn(pauses: set<(Id, Id)>, channel: Id): set<Id> {
    set p | p in pauses && p.0 == channel :: p.1
  }

  function AddTask(e: State, o: nat, batch: Batch<Entry>): State
    requires o < |e.objs|
  {
    var t := Task(|e.tasks|, e.objs[o].rules.id, o, batch, e.objs[o].openedAt, e.now);
    e.(tasks := e.tasks + [t], pool := e.pool.(held := e.pool.held + [t]))
  }

  function VerdictOf(e: State, o: nat): Verdict
    requires o < |e.objs|
  {
    var x := e.objs[o];
    Decide(x.rules, x.rt, e.now, Some(OkSince(e.rows, x.rules.id, DayStart(e.now))))
  }

  function Accept(e: State, o: nat, ev: Event<Entry>): State
    requires o < |e.objs|
  {
    var x := e.objs[o];
    var v := VerdictOf(e, o);
    if v == Cooling then e
    else if v == Exhausted then e.(rows := e.rows + [Row(x.rules.id, e.now, StatusBudgetExhausted, 0, None)])
    else
      var x' := x.(rt := Admit(x.rules, x.rt, ev, e.now, v),
                   accepted := x.accepted + [ev.item],
                   openedAt := if v.Opens() then e.now else x.openedAt);
      var e' := e.(objs := e.objs[o := x']);
      if v == Drained then AddTask(e', o, BatchOf(Gather(x.rules, x.rt, ev))) else e'
  }

  function Visit(e: State, n: nat, o: nat, hit: bool): State
    requires n < |e.notes| && o < |e.objs|
  {
    var note := e.notes[n];
    var e' := e.(notes := e.notes[n := note.(todo := note.todo - {o})]);
    var x := e.objs[o];
    if !hit then e'
    else if x.rules.account in note.paused then
      e'.(rows := e.rows + [Row(x.rules.id, e.now, StatusPaused, 0, None)])
    else Accept(e', o, note.ev)
  }

  function FlushObj(e: State, o: nat): State
    requires o < |e.objs|
  {
    var x := e.objs[o];
    var e' := e.(objs := e.objs[o := x.(rt := DrainState(x.rt.(timer := NoTimer), e.now))]);
    if x.rt.pending == [] then e' else AddTask(e', o, BatchOf(x.rt))
  }

  /** A visit that is not paused does to the object what HandleMatch does, with the task it returns. */
  lemma AcceptAsMethod(e: State, o: nat, ev: Event<Entry>)
    requires o < |e.objs|
    ensures var x, e' := e.objs[o], Accept(e, o, ev);
      var v := Decide(x.rules, x.rt, e.now, Some(OkSince(e.rows, x.rules.id, DayStart(e.now))));
      && |e'.objs| == |e.objs|
      && e'.objs[o].rt == (if v.Accepts() then Admit(x.rules, x.rt, ev, e.now, v) else x.rt)
      && e'.rows == (if v == Exhausted then e.rows + [Row(x.rules.id, e.now, StatusBudgetExhausted, 0, None)] else e.rows)
      && Drains(e, e', o, if v == Drained then Some(BatchOf(Gather(x.rules, x.rt, ev))) else None)
  {
  }

  /** A flush does to the object what FlushDebounced does, with the task it returns. */
  lemma FlushAsMethod(e: State, o: nat)
    requires o < |e.objs|
    ensures var x, e' := e.objs[o], FlushObj(e, o);
      && |e'.objs| == |e.objs|
      && e'.objs[o].rt == DrainState(x.rt.(timer := NoTimer), e.now)
      && Drains(e, e', o, DrainBatch(x.rt.(timer := NoTimer)))
  {
  }

  /** From e to e' object o drained this batch, if any, which its drainer now holds. */
  ghost predicate Drains(e: State, e': State, o: nat, batch: Option<Batch<Entry>>)
    requires o < |e.objs|
  {
    match batch
    case None => e'.tasks == e.tasks && e'.pool == e.pool
    case Some(b) =>
      && |e'.tasks| == |e.tasks| + 1
      && var t := e'.tasks[|e.tasks|];
         && t.batch == b && t.obj == o && t.sub == e.objs[o].rules.id && t.at == e.now
         && e'.tasks == e.tasks + [t] && e'.pool == e.pool.(held := e.pool.held + [t])
  }

  predicate CanMove(p: Pool, m: PoolMove) {
    match m
    case Start => !p.started
    case Enqueue(i) => i < |p.held|
    case Take => p.queue != [] && p.idle > 0
    case Stop => true
    case WorkerExits => p.idle > 0
  }

  function Move(c: Config, p: Pool, m: PoolMove): Pool
    requires CanMove(p, m)
  {
    match m
    case Start => p.(started := true, idle := c.workers)
    case Enqueue(i) =>
      var p' := p.(held := Without(p.held, i));
      if p.stopping then p'.(discarded := p.discarded + [p.held[i]])
      else if |p.queue| < c.queueDepth then p'.(queue := p.queue + [p.held[i]])
      else p'.(overflow := p.overflow + [p.held[i]])
    case Take => p.(queue := p.queue[1..], busy := p.busy + [p.queue[0]], idle := p.idle - 1)
    case Stop => p.(stopping := true)
    case WorkerExits => p.(idle := p.idle - 1)
  }

  function StatusFor(ending: Ending): Status {
    match ending
    case Delivered => StatusOk
    case Refused => StatusDropped4xx
    case GaveUp => StatusFailed
  }

  function NextConsec(consec: nat, ending: Ending): nat {
    match ending
    case Delivered => 0
    case Refused => consec + 1
    case GaveUp => consec
  }

  predicate Disables(c: Config, consec: nat, ending: Ending) {
    ending == Refused && consec + 1 >= c.threshold
  }

  function Conclude(c: Config, x: Live, ending: Ending): Live {
    x.(consec := NextConsec(x.consec, ending),
       endings := x.endings + [ending],
       disables := if Disables(c, x.consec, ending) then x.disables + [|x.endings|] else x.disables)
  }

  function AnswerTask(c: Config, e: State, i: nat, ending: Ending): State
    requires i < |e.pool.busy|
  {
    var t := e.pool.busy[i];
    var disable := t.obj < |e.objs| && Disables(c, e.objs[t.obj].consec, ending);
    var e' := e.(pool := e.pool.(busy := Without(e.pool.busy, i),
                                 outcomes := e.pool.outcomes + [Outcome(t, ending, disable)]));
    if t.obj >= |e.objs| then e' else e'.(objs := e.objs[t.obj := Conclude(c, e.objs[t.obj], ending)])
  }

  function ReportOf(x: Outcome, now: int, attempts: int): Row {
    Row(x.task.sub, now, StatusFor(x.ending), attempts, Some(x.task))
  }

  function RecordOutcome(e: State, j: nat, attempts: int): State
    requires j < |e.pool.outcomes|
  {
    var x := e.pool.outcomes[j];
    e.(pool := e.pool.(outcomes := Without(e.pool.outcomes, j), idle := e.pool.idle + 1),
       rows := e.rows + [ReportOf(x, e.now, attempts)],
       dueDisables := if x.disable then e.dueDisables + [x.task.obj] else e.dueDisables)
  }

  predicate Enabled(c: Config, e: State, s: Step) {
    match s
    case Tick(to) => to >= e.now
    case NotifyStep(n, o, _) => n < |e.notes| && o in e.notes[n].todo && o < |e.objs|
    case TimerFires(o) => o < |e.objs| && e.objs[o].rt.timer.Armed? && e.now >= e.objs[o].rt.timer.due
    case FlushDebounced(o) => o < |e.objs| && e.objs[o].rt.timer.Fired?
    case PoolStep(m) => CanMove(e.pool, m)
    case Answer(i, _) => i < |e.pool.busy|
    case Record(j, _) => j < |e.pool.outcomes|
    case AutoDisable(i) => i < |e.dueDisables| && e.dueDisables[i] < |e.objs|
    case _ => true
  }

  function Apply(c: Config, e: State, s: Step): State
    requires Enabled(c, e, s)
  {
    match s
    case Tick(to) => e.(now := to)
    case Install(rules) =>
      e.(objs := StopCached(e, rules.id) + [Compiled(rules)], cache := e.cache[rules.id := |e.objs|])
    case Remove(id) => Evict(e, id)
    case ClearCache(paused) => e.(cache := map[], pauses := paused)
    case SetPaused(channel, bot, on) =>
      e.(pauses := if on then e.pauses + {(channel, bot)} else e.pauses - {(channel, bot)})
    case NotifyBegin(channel, channelName, body, context) =>
      e.(notes := e.notes + [Note(Event(channel, channelName, Entry(body, |e.notes|), context),
                                  PausedOn(e.pauses, channel), Watching(e, channel))])
    case NotifyStep(n, o, hit) => Visit(e, n, o, hit)
    case TimerFires(o) =>
      e.(objs := e.objs[o := e.objs[o].(rt := e.objs[o].rt.(timer := Fired(e.objs[o].rt.timer.due)))])
    case FlushDebounced(o) => FlushObj(e, o)
    case PoolStep(m) => e.(pool := Move(c, e.pool, m))
    case Answer(i, ending) => AnswerTask(c, e, i, ending)
    case Record(j, attempts) => RecordOutcome(e, j, attempts)
    case AutoDisable(i) =>
      Evict(e.(dueDisables := Without(e.dueDisables, i)), e.objs[e.dueDisables[i]].rules.id)
  }

  function Next(c: Config, e: State, s: Step): State {
    if Enabled(c, e, s) then Apply(c, e, s) else e
  }

  /** The state after a run of the engine. */
  function After(c: Config, steps: seq<Step>): State {
    if steps == [] then Init()
    else Next(c, After(c, steps[..|steps| - 1]), steps[|steps| - 1])
  }

  lemma AfterSnoc(c: Config, steps: seq<Step>, s: Step)
    ensures After(c, steps + [s]) == Next(c, After(c, steps), s)
  {
    assert (steps + [s])[..|steps|] == steps;
  }

  /** The cache maps each id to an object compiled for that id. */
  ghost predicate CacheOk(e: State) {
    forall id :: id in e.cache ==> e.cache[id] < |e.objs| && e.objs[e.cache[id]].rules.id == id
  }

  /** A notification visits only objects of its own channel. */
  ghost predicate NoteOk(e: State, n: nat)
    requires n < |e.notes|
  {
    && e.notes[n].ev.item.note == n
    && forall o :: o in e.notes[n].todo ==> o < |e.objs| && e.objs[o].rules.channel == e.notes[n].ev.channel
  }

  ghost predicate TaskOk(e: State, i: nat)
    requires i < |e.tasks|
  {
    var t := e.tasks[i];
    t.no == i && t.obj < |e.objs| && t.sub == e.objs[t.obj].rules.id
  }

  /** The pool stays within its limits. */
  ghost predicate PoolOk(c: Config, p: Pool) {
    && |p.queue| <= c.queueDepth
    && |p.busy| + |p.outcomes| + p.idle <= c.workers
    && (!p.started ==> p.idle == 0 && p.busy == [] && p.outcomes == [])
  }

  ghost predicate WellFormed(c: Config, e: State) {
    && CacheOk(e)
    && (forall n :: 0 <= n < |e.notes| ==> NoteOk(e, n))
    && (forall i :: 0 <= i < |e.tasks| ==> TaskOk(e, i))
    && PoolOk(c, e.pool)
  }

  /** Objects keep their rules, and neither objects nor drained tasks ever disappear. */
  ghost predicate Extends(e: State, e': State) {
    && |e.objs| <= |e'.objs|
    && (forall o :: 0 <= o < |e.objs| ==> e'.objs[o].rules == e.objs[o].rules)
    && e.tasks <= e'.tasks
    && e.now <= e'.now
  }

  /** One visit touches one object and one note, and drains at most one task, of that object. */
  lemma VisitFrame(e: State, n: nat, o: nat, hit: bool)
    requires n < |e.notes| && o < |e.objs|
    ensures var e' := Visit(e, n, o, hit);
      && |e'.objs| == |e.objs|
      && (forall p :: 0 <= p < |e.objs| && p != o ==> e'.objs[p] == e.objs[p])
      && e'.objs[o].rules == e.objs[o].rules
      && e.tasks <= e'.tasks && |e'.tasks| <= |e.tasks| + 1
      && (|e'.tasks| > |e.tasks| ==>
            var t := e'.tasks[|e.tasks|]; t.no == |e.tasks| && t.obj == o && t.sub == e.objs[o].rules.id)
      && e' == e.(objs := e'.objs, rows := e'.rows, tasks := e'.tasks,
                  pool := e.pool.(held := e'.pool.held),
                  notes := e.notes[n := e.notes[n].(todo := e.notes[n].todo - {o})])
  {
  }

  lemma StepExtends(c: Config, e: State, s: Step)
    ensures Extends(e, Next(c, e, s))
  {
    if Enabled(c, e, s) {
      match s
      case NotifyStep(n, o, hit) =>
        VisitFrame(e, n, o, hit);
      case FlushDebounced(o) =>
      case Answer(_, _) =>
      case Record(_, _) =>
      case Install(rules) =>
      case Remove(id) =>
      case AutoDisable(i) =>
      case _ =>
    }
  }

  /** Only the timer, consec and the endings of an object changed. */
  ghost predicate Quiet(x: Live, x': Live) {
    && x'.rules == x.rules && x'.accepted == x.accepted && x'.openedAt == x.openedAt
    && x'.rt == x.rt.(timer := x'.rt.timer)
  }

  predicate Loud(s: Step) { s.NotifyStep? || s.FlushDebounced? }

  /** Steps other than a visit and a flush accept nothing and drain nothing. */
  lemma StepQuiet(c: Config, e: State, s: Step)
    requires !Loud(s)
    ensures var e' := Next(c, e, s);
      && e'.tasks == e.tasks && |e.objs| <= |e'.objs|
      && (forall o :: 0 <= o < |e.objs| ==> Quiet(e.objs[o], e'.objs[o]))
      && (forall o :: |e.objs| <= o < |e'.objs| ==> e'.objs[o] == Compiled(e'.objs[o].rules))
  {
    if Enabled(c, e, s) {
      match s
      case Install(rules) =>
      case Remove(id) =>
      case AutoDisable(i) =>
      case Answer(_, _) =>
      case Record(_, _) =>
      case _ =>
    }
  }

  /** A visit to another object, or a step that is not enabled, is no concern of object o. */
  lemma StepLoudElsewhere(c: Config, e: State, s: Step, o: nat)
    requires Loud(s) && o < |e.objs| && s.o != o
    ensures var e' := Next(c, e, s); |e'.objs| == |e.objs| && e'.objs[o] == e.objs[o]
    ensures var e' := Next(c, e, s);
      e'.tasks == e.tasks || (|e'.tasks| == |e.tasks| + 1 && e.tasks <= e'.tasks && e'.tasks[|e.tasks|].obj == s.o)
  {
    if Enabled(c, e, s) && s.NotifyStep? {
      VisitFrame(e, s.n, s.o, s.hit);
    }
  }

  lemma StepCache(c: Config, e: State, s: Step)
    requires CacheOk(e)
    ensures CacheOk(Next(c, e, s))
  {
    StepExtends(c, e, s);
    if Enabled(c, e, s) {
      match s
      case NotifyStep(n, o, hit) => VisitFrame(e, n, o, hit);
      case FlushDebounced(o) => assert Next(c, e, s).cache == e.cache;
      case Answer(_, _) => assert Next(c, e, s).cache == e.cache;
      case Record(_, _) => assert Next(c, e, s).cache == e.cache;
      case _ =>
    }
  }

  lemma StepPool(c: Config, e: State, s: Step)
    requires PoolOk(c, e.pool)
    ensures PoolOk(c, Next(c, e, s).pool)
  {
    if Enabled(c, e, s) {
      match s
      case NotifyStep(n, o, hit) => VisitFrame(e, n, o, hit);
      case _ =>
    }
  }

  lemma StepNote(c: Config, e: State, s: Step, n: nat)
    requires CacheOk(e) && n < |Next(c, e, s).notes|
    requires n < |e.notes| ==> NoteOk(e, n)
    ensures NoteOk(Next(c, e, s), n)
    ensures |e.notes| <= |Next(c, e, s).notes| <= |e.notes| + 1
  {
    var e' := Next(c, e, s);
    StepExtends(c, e, s);
    if Enabled(c, e, s) {
      match s
      case NotifyStep(m, o, hit) =>
        VisitFrame(e, m, o, hit);
        assert e'.notes[n].todo <= e.notes[n].todo && e'.notes[n].ev == e.notes[n].ev;
      case NotifyBegin(channel, _, _, _) =>
        if n == |e.notes| {
          assert e'.notes[n].todo == Watching(e, channel);
        }
      case FlushDebounced(o) => assert e'.notes == e.notes;
      case Answer(_, _) => assert e'.notes == e.notes;
      case Record(_, _) => assert e'.notes == e.notes;
      case _ => assert e'.notes == e.notes;
    }
  }

  lemma StepTask(c: Config, e: State, s: Step, i: nat)
    requires i < |Next(c, e, s).tasks|
    requires i < |e.tasks| ==> TaskOk(e, i)
    ensures TaskOk(Next(c, e, s), i)
  {
    var e' := Next(c, e, s);
    StepExtends(c, e, s);
    if i < |e.tasks| {
      assert e'.tasks[i] == e.tasks[i];
    } else {
      match s
      case NotifyStep(n, o, hit) =>
        VisitFrame(e, n, o, hit);
      case FlushDebounced(o) =>
      case Answer(_, _) =>
      case Record(_, _) =>
      case _ =>
    }
  }

  lemma StepWellFormed(c: Config, e: State, s: Step)
    requires WellFormed(c, e)
    ensures WellFormed(c, Next(c, e, s))
  {
    var e' := Next(c, e, s);
    StepCache(c, e, s);
    StepPool(c, e, s);
    forall n | 0 <= n < |e'.notes| ensures NoteOk(e', n) { StepNote(c, e, s, n); }
    forall i | 0 <= i < |e'.tasks| ensures TaskOk(e', i) { StepTask(c, e, s, i); }
  }

  lemma {:induction false} AlwaysWellFormed(c: Config, steps: seq<Step>)
    ensures WellFormed(c, After(c, steps))
  {
    if steps != [] {
      AlwaysWellFormed(c, steps[..|steps| - 1]);
      StepWellFormed(c, After(c, steps[..|steps| - 1]), steps[|steps| - 1]);
    }
  }
}
