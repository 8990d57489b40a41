/**
 Leader election over a session-scoped advisory lock (internal/ha/postgres.go): any number of
 processes, the database that grants the lock, and the heartbeat that notices a lost session.

 Time advances only by Clock steps, which are held back while a ticker is due, a heartbeat has a
 tick to act on, or a ping has been out for P: tickers fire on time and pings return within P.
 */
module Elector {
  import opened Base

  const HEALTH_CHECK := 2 * SECOND

  /** A ping on its way; doomed when its session was already gone when it started. */
  datatype Ping = Ping(start: int, doomed: bool)

  /** The heartbeat of one leadership: its ticker, one buffered tick, its ping. */
  datatype Heartbeat = Heartbeat(started: int, nextTick: int, buffered: bool, ping: Option<Ping>)

  /**
   One elector. Trying polls for the lock; Granted has it but has no leader context yet; Leading
   has one, live or cancelled; Releasing has cancelled it and has yet to unlock.
   */
  datatype Proc =
    | Idle
    | Trying(session: nat)
    | Granted(session: nat)
    | Leading(session: nat, live: bool, beat: Heartbeat)
    | Releasing(session: nat)

  /** Sessions are numbered as they open. lost records when the database dropped one. */
  datatype State = State(
    now: int, procs: seq<Proc>, nextSession: nat, alive: set<nat>, holder: Option<nat>, lost: map<nat, int>)

  datatype Step =
    | Clock(to: int)
    | BeginAcquire(p: nat)
    | TryLock(p: nat)
    | GiveUp(p: nat)              // the parent is done, or the query failed
    | StartLeading(p: nat)
    | Tick(p: nat)
    | BeginPing(p: nat)
    | EndPing(p: nat, ok: bool)
    | Cancel(p: nat)              // the parent is done, or a heartbeat left over from before failed
    | BeginRelease(p: nat)        // Release up to its cancel
    | EndRelease(p: nat)          // unlock and close
    | SessionLost(session: nat)

  function Init(n: nat): State {
    State(0, seq(n, _ => Idle), 0, {}, None, map[])
  }

  predicate LiveAt(e: State, p: nat) {
    p < |e.procs| && e.procs[p].Leading? && e.procs[p].live
  }

  /** The clock may not pass what must happen on time. */
  predicate OnTime(b: Heartbeat, to: int, P: int) {
    && to <= b.nextTick
    && (b.ping.None? ==> !b.buffered)
    && (b.ping.Some? ==> to <= b.ping.value.start + P)
  }

  predicate Enabled(e: State, s: Step, P: int) {
    match s
    case Clock(to) => e.now <= to && forall p :: 0 <= p < |e.procs| && LiveAt(e, p) ==> OnTime(e.procs[p].beat, to, P)
    case BeginAcquire(p) => p < |e.procs| && (e.procs[p].Idle? || (e.procs[p].Leading? && !e.procs[p].live))
    case TryLock(p) => p < |e.procs| && e.procs[p].Trying? && e.procs[p].session in e.alive && e.holder.None?
    case GiveUp(p) => p < |e.procs| && e.procs[p].Trying?
    case StartLeading(p) => p < |e.procs| && e.procs[p].Granted?
    case Tick(p) => LiveAt(e, p) && e.now == e.procs[p].beat.nextTick
    case BeginPing(p) => LiveAt(e, p) && e.procs[p].beat.buffered && e.procs[p].beat.ping.None?
    case EndPing(p, ok) => LiveAt(e, p) && e.procs[p].beat.ping.Some? && (ok ==> !e.procs[p].beat.ping.value.doomed)
    case Cancel(p) => LiveAt(e, p)
    case BeginRelease(p) => p < |e.procs| && e.procs[p].Leading?
    case EndRelease(p) => p < |e.procs| && e.procs[p].Releasing?
    case SessionLost(n) => n in e.alive
  }

  /** The database forgets a session, and with it the lock if the session held it. */
  function Drop(e: State, n: nat): State {
    e.(alive := e.alive - {n}, holder := if e.holder == Some(n) then None else e.holder)
  }

  function Beating(e: State, p: nat, b: Heartbeat): State
    requires LiveAt(e, p)
  {
    e.(procs := e.procs[p := e.procs[p].(beat := b)])
  }

  function Apply(e: State, s: Step, P: int): State
    requires Enabled(e, s, P)
  {
    match s
    case Clock(to) => e.(now := to)
    case BeginAcquire(p) =>
      e.(procs := e.procs[p := Trying(e.nextSession)], nextSession := e.nextSession + 1, alive := e.alive + {e.nextSession})
    case TryLock(p) => e.(procs := e.procs[p := Granted(e.procs[p].session)], holder := Some(e.procs[p].session))
    case GiveUp(p) => Drop(e, e.procs[p].session).(procs := e.procs[p := Idle])
    case StartLeading(p) =>
      e.(procs := e.procs[p := Leading(e.procs[p].session, true, Heartbeat(e.now, e.now + HEALTH_CHECK, false, None))])
    case Tick(p) =>
      var b := e.procs[p].beat;
      Beating(e, p, b.(buffered := true, nextTick := b.nextTick + HEALTH_CHECK))
    case BeginPing(p) =>
      Beating(e, p, e.procs[p].beat.(buffered := false, ping := Some(Ping(e.now, e.procs[p].session !in e.alive))))
    case EndPing(p, ok) =>
      var e' := Beating(e, p, e.procs[p].beat.(ping := None));
      if ok then e' else Cancelled(e', p)
    case Cancel(p) => Cancelled(e, p)
    case BeginRelease(p) => e.(procs := e.procs[p := Releasing(e.procs[p].session)])
    case EndRelease(p) => Drop(e, e.procs[p].session).(procs := e.procs[p := Idle])
    case SessionLost(n) => Drop(e, n).(lost := e.lost[n := e.now])
  }

  function Cancelled(e: State, p: nat): State
    requires LiveAt(e, p)
  {
    e.(procs := e.procs[p := e.procs[p].(live := false)])
  }

  function Next(e: State, s: Step, P: int): State {
    if Enabled(e, s, P) then Apply(e, s, P) else e
  }

  function After(n: nat, steps: seq<Step>, P: int): State {
    if steps == [] then Init(n) else Next(After(n, steps[..|steps| - 1], P), steps[|steps| - 1], P)
  }

  // Invariants

  /** p's session is its own, and as long as it lives it holds the lock that p was granted. */
  ghost predicate Owns(e: State, p: nat)
    requires p < |e.procs|
  {
    var x := e.procs[p];
    && (!x.Idle? ==> x.session < e.nextSession)
    && (x.Granted? || x.Leading? ==>
          (if x.session in e.alive then e.holder == Some(x.session) else x.session in e.lost))
  }

  ghost predicate Apart(e: State, p: nat, q: nat)
    requires p < |e.procs| && q < |e.procs|
  {
    p != q && !e.procs[p].Idle? && !e.procs[q].Idle? ==> e.procs[p].session != e.procs[q].session
  }

  ghost predicate Safe(e: State) {
    && (forall n :: n in e.alive || n in e.lost ==> n < e.nextSession)
    && (forall n :: n in e.lost ==> n !in e.alive)
    && (forall p :: 0 <= p < |e.procs| ==> Owns(e, p))
    && (forall p, q :: 0 <= p < |e.procs| && 0 <= q < |e.procs| ==> Apart(e, p, q))
  }

  lemma StepApart(e: State, s: Step, P: int, p: nat, q: nat)
    requires Safe(e) && p < |e.procs| && q < |e.procs|
    ensures |Next(e, s, P).procs| == |e.procs| && Apart(Next(e, s, P), p, q)
  {
    assert Apart(e, p, q) && Owns(e, p) && Owns(e, q);
  }

  lemma StepOwns(e: State, s: Step, P: int, p: nat)
    requires Safe(e) && p < |e.procs|
    ensures |Next(e, s, P).procs| == |e.procs| && Owns(Next(e, s, P), p)
  {
    assert Owns(e, p);
    if Enabled(e, s, P) && (s.GiveUp? || s.EndRelease?) {
      assert Apart(e, p, s.p);
    }
  }

  lemma StepSafe(e: State, s: Step, P: int)
    requires Safe(e)
    ensures Safe(Next(e, s, P))
  {
    var e' := Next(e, s, P);
    forall p | 0 <= p < |e'.procs| ensures Owns(e', p) {
      Size(e, s, P);
      StepOwns(e, s, P, p);
    }
    forall p, q | 0 <= p < |e'.procs| && 0 <= q < |e'.procs| ensures Apart(e', p, q) {
      Size(e, s, P);
      StepApart(e, s, P, p, q);
    }
  }

  lemma Size(e: State, s: Step, P: int)
    ensures |Next(e, s, P).procs| == |e.procs|
  {
  }

  /** The ticker is never late or early, and a ping is never out too long. */
  ghost predicate Paced(e: State, b: Heartbeat, P: int) {
    && b.started <= e.now <= b.nextTick <= e.now + HEALTH_CHECK
    && (b.ping.Some? ==>
          && b.ping.value.start <= e.now <= b.ping.value.start + P
          && (b.buffered || b.nextTick <= b.ping.value.start + HEALTH_CHECK))
  }

  /** No later than this does the first ping start that is bound to fail. */
  function LastPing(since: int, P: int): int {
    since + Max(HEALTH_CHECK, P)
  }

  /** How a heartbeat stands whose session has been gone since then. */
  ghost predicate Doomed(e: State, b: Heartbeat, since: int, P: int) {
    && since <= e.now
    && match b.ping
       case None => (if b.buffered then e.now else b.nextTick) <= LastPing(since, P)
       case Some(ping) => ping.start <= if ping.doomed then LastPing(since, P) else since
  }

  ghost predicate Watched(e: State, p: nat, P: int)
    requires p < |e.procs|
  {
    var x := e.procs[p];
    && (x.Granted? && x.session in e.lost ==> e.lost[x.session] <= e.now)
    && (LiveAt(e, p) ==>
          && Paced(e, x.beat, P)
          && (x.session !in e.alive && x.session in e.lost ==>
                Doomed(e, x.beat, Max(e.lost[x.session], x.beat.started), P))
          && (x.session in e.alive && x.beat.ping.Some? ==> !x.beat.ping.value.doomed))
  }

  lemma StepWatched(e: State, s: Step, P: int, p: nat)
    requires Safe(e) && p < |e.procs| && P >= 0 && Watched(e, p, P)
    ensures p < |Next(e, s, P).procs| && Watched(Next(e, s, P), p, P)
  {
    assert Owns(e, p);
    if Enabled(e, s, P) {
      if s.Clock? {
        ClockWatched(e, s.to, P, p);
      } else if s.SessionLost? {
        LossWatched(e, s.session, P, p);
      } else if s.Tick? || s.BeginPing? || s.EndPing? {
        BeatWatched(e, s, P, p);
      } else if s.GiveUp? || s.EndRelease? {
        assert Apart(e, p, s.p);
      }
    }
  }

  lemma ClockWatched(e: State, to: int, P: int, p: nat)
    requires Safe(e) && p < |e.procs| && P >= 0 && Watched(e, p, P) && Enabled(e, Clock(to), P)
    ensures Watched(Next(e, Clock(to), P), p, P)
  {
    if LiveAt(e, p) { assert OnTime(e.procs[p].beat, to, P); }
  }

  lemma LossWatched(e: State, n: nat, P: int, p: nat)
    requires Safe(e) && p < |e.procs| && P >= 0 && Watched(e, p, P) && n in e.alive
    ensures Watched(Next(e, SessionLost(n), P), p, P)
  {
    assert Owns(e, p);
  }

  lemma BeatWatched(e: State, s: Step, P: int, p: nat)
    requires Safe(e) && p < |e.procs| && P >= 0 && Watched(e, p, P)
    requires (s.Tick? || s.BeginPing? || s.EndPing?) && Enabled(e, s, P)
    ensures Watched(Next(e, s, P), p, P)
  {
    assert Owns(e, p);
  }

  lemma {:induction false} AlwaysSafe(n: nat, steps: seq<Step>, P: int)
    requires P >= 0
    ensures var e := After(n, steps, P);
      |e.procs| == n && Safe(e) && forall p :: 0 <= p < n ==> Watched(e, p, P)
  {
    if steps != [] {
      var e, s := After(n, steps[..|steps| - 1], P), steps[|steps| - 1];
      AlwaysSafe(n, steps[..|steps| - 1], P);
      StepSafe(e, s, P);
      Size(e, s, P);
      forall p | 0 <= p < n ensures Watched(Next(e, s, P), p, P) { StepWatched(e, s, P, p); }
    }
  }

  // Main results

  /** A live leader context whose session lives holds the lock. */
  lemma LiveHolds(n: nat, steps: seq<Step>, P: int, p: nat)
    requires P >= 0 && LiveAt(After(n, steps, P), p)
    ensures var e := After(n, steps, P);
      e.procs[p].session in e.alive ==> e.holder == Some(e.procs[p].session)
  {
    AlwaysSafe(n, steps, P);
    assert Owns(After(n, steps, P), p);
  }

  /** This context outlived its session, so far by no more than bound. */
  ghost predicate Overstays(e: State, p: nat, bound: int)
    requires LiveAt(e, p)
  {
    var x := e.procs[p];
    && x.session !in e.alive && x.session in e.lost
    && e.now <= Max(e.lost[x.session], x.beat.started) + bound
  }

  /**
   Two live leader contexts overlap only if one of them lost its session, and then for at most
   max(HealthCheckInterval, P) + P after the loss (or after the context started, if that was later).
   */
  lemma OverlapBounded(n: nat, steps: seq<Step>, P: int, p: nat, q: nat)
    requires P >= 0 && p != q
    requires LiveAt(After(n, steps, P), p) && LiveAt(After(n, steps, P), q)
    ensures var e, bound := After(n, steps, P), Max(HEALTH_CHECK, P) + P;
      Overstays(e, p, bound) || Overstays(e, q, bound)
  {
    AlwaysSafe(n, steps, P);
    var e := After(n, steps, P);
    assert Owns(e, p) && Owns(e, q) && Apart(e, p, q);
    assert Watched(e, p, P) && Watched(e, q, P);
  }

  lemma {:induction false} OnlyLossIsRecorded(n: nat, steps: seq<Step>, P: int)
    requires forall i :: 0 <= i < |steps| ==> !steps[i].SessionLost?
    ensures After(n, steps, P).lost == map[]
  {
    if steps != [] { OnlyLossIsRecorded(n, steps[..|steps| - 1], P); }
  }

  /** Releasing, giving up and taking over never make two leaders: as long as no session is lost there is at most one. */
  lemma OneLeaderUnlessSessionLost(n: nat, steps: seq<Step>, P: int, p: nat, q: nat)
    requires P >= 0 && forall i :: 0 <= i < |steps| ==> !steps[i].SessionLost?
    requires LiveAt(After(n, steps, P), p) && LiveAt(After(n, steps, P), q)
    ensures p == q
  {
    OnlyLossIsRecorded(n, steps, P);
    if p != q { OverlapBounded(n, steps, P, p, q); }
  }

  /**
   A live leader whose session lives can always hand over: once it has released, whichever idle process
   asks next gets the lock at its first try, and from then on it leads and the old leader does not.
   */
  lemma Handover(n: nat, steps: seq<Step>, P: int, p: nat, q: nat)
    requires P >= 0 && LiveAt(After(n, steps, P), p) && After(n, steps, P).procs[p].session in After(n, steps, P).alive
    requires q < |After(n, steps, P).procs| && After(n, steps, P).procs[q].Idle?
    ensures var free := After(n, steps + [BeginRelease(p), EndRelease(p)], P);
      && |free.procs| == |After(n, steps, P).procs|
      && free.holder == None && free.procs[p].Idle? && Enabled(free, BeginAcquire(q), P)
      && var e := Next(Next(Next(free, BeginAcquire(q), P), TryLock(q), P), StartLeading(q), P);
      && LiveAt(e, q) && !LiveAt(e, p) && e.holder == Some(e.procs[q].session) && e.procs[q].session in e.alive
  {
    LiveHolds(n, steps, P, p);
    AfterTwo(n, steps, BeginRelease(p), EndRelease(p), P);
    var e := After(n, steps, P);
    var e1 := Next(e, BeginRelease(p), P);
    assert e1.procs[p] == Releasing(e.procs[p].session) && e1.procs[q].Idle?;
    var free := Next(e1, EndRelease(p), P);
    assert free.holder == None && free.procs[q].Idle?;
    FreeLockTaken(free, q, P);
  }

  lemma AfterTwo(n: nat, steps: seq<Step>, s: Step, t: Step, P: int)
    ensures After(n, steps + [s, t], P) == Next(Next(After(n, steps, P), s, P), t, P)
  {
    assert (steps + [s, t])[..|steps| + 1] == steps + [s];
    assert (steps + [s])[..|steps|] == steps;
  }

  lemma FreeLockTaken(free: State, q: nat, P: int)
    requires q < |free.procs| && free.procs[q].Idle? && free.holder == None
    ensures var e := Next(Next(Next(free, BeginAcquire(q), P), TryLock(q), P), StartLeading(q), P);
      && LiveAt(e, q) && e.holder == Some(e.procs[q].session) && e.procs[q].session in e.alive
      && forall p :: LiveAt(e, p) && p != q ==> LiveAt(free, p)
  {
    var e1 := Next(free, BeginAcquire(q), P);
    assert e1.procs[q] == Trying(free.nextSession) && e1.holder == None;
    var e2 := Next(e1, TryLock(q), P);
    assert e2.procs[q] == Granted(free.nextSession) && Enabled(e2, StartLeading(q), P);
  }

  // The bound is reached

  function Play(e: State, steps: seq<Step>, P: int): State
    decreases |steps|
  {
    if steps == [] then e else Play(Next(e, steps[0], P), steps[1..], P)
  }

  lemma {:induction false} PlayOn(e: State, a: seq<Step>, b: seq<Step>, P: int)
    ensures Play(e, a + b, P) == Play(Play(e, a, P), b, P)
    decreases |a|
  {
    if a == [] {
      assert a + b == b;
    } else {
      PlayOn(Next(e, a[0], P), a[1..], b, P);
      assert (a + b)[1..] == a[1..] + b;
    }
  }

  lemma {:induction false} PlayIsAfter(n: nat, steps: seq<Step>, P: int)
    ensures Play(Init(n), steps, P) == After(n, steps, P)
  {
    if steps != [] {
      var most, s := steps[..|steps| - 1], steps[|steps| - 1];
      PlayIsAfter(n, most, P);
      PlayOn(Init(n), most, [s], P);
      assert steps == most + [s];
    }
  }

  /** The first process alone: its heartbeat, when, and whether its session is there. */
  function Alone(now: int, beat: Heartbeat, lost: map<nat, int>): State {
    var up := lost == map[];
    State(now, [Leading(0, true, beat), Idle], 1, if up then {0} else {}, if up then Some(0) else None, lost)
  }

  lemma AloneActs(now: int, beat: Heartbeat, lost: map<nat, int>, P: int)
    requires lost == map[] || 0 in lost
    ensures var e := Alone(now, beat, lost);
      && (now == beat.nextTick ==>
            Next(e, Tick(0), P) == Alone(now, beat.(buffered := true, nextTick := beat.nextTick + HEALTH_CHECK), lost))
      && (beat.buffered && beat.ping.None? ==>
            Next(e, BeginPing(0), P) == Alone(now, beat.(buffered := false, ping := Some(Ping(now, lost != map[]))), lost))
      && (beat.ping.Some? && !beat.ping.value.doomed ==>
            Next(e, EndPing(0, true), P) == Alone(now, beat.(ping := None), lost))
  {
    var e := Alone(now, beat, lost);
    if lost != map[] { assert 0 in lost; }
    if now == beat.nextTick {
      var b := beat.(buffered := true, nextTick := beat.nextTick + HEALTH_CHECK);
      assert Next(e, Tick(0), P).procs == [Leading(0, true, b), Idle];
    }
    if beat.buffered && beat.ping.None? {
      var b := beat.(buffered := false, ping := Some(Ping(now, lost != map[])));
      assert Next(e, BeginPing(0), P).procs == [Leading(0, true, b), Idle];
    }
    if beat.ping.Some? && !beat.ping.value.doomed {
      assert Next(e, EndPing(0, true), P).procs == [Leading(0, true, beat.(ping := None)), Idle];
    }
  }

  lemma AloneWaits(now: int, beat: Heartbeat, lost: map<nat, int>, to: int, P: int)
    requires now <= to && OnTime(beat, to, P)
    ensures Next(Alone(now, beat, lost), Clock(to), P) == Alone(to, beat, lost)
  {
  }

  lemma AloneLoses(now: int, beat: Heartbeat, P: int)
    ensures Next(Alone(now, beat, map[]), SessionLost(0), P) == Alone(now, beat, map[0 := now])
  {
    var lost: map<nat, int> := map[0 := now];
    var e' := Next(Alone(now, beat, map[]), SessionLost(0), P);
    assert 0 in lost && e'.lost == lost;
    assert e'.alive == {};
  }

  lemma PlayOne(e: State, s: Step, P: int)
    ensures Play(e, [s], P) == Next(e, s, P)
  {
    assert [s][1..] == [];
  }

  lemma PlayTwo(e: State, s: Step, t: Step, P: int)
    ensures Play(e, [s, t], P) == Next(Next(e, s, P), t, P)
  {
    assert [s, t][1..] == [t];
    PlayOne(Next(e, s, P), t, P);
  }

  lemma PlayThree(e: State, s: Step, t: Step, u: Step, P: int)
    ensures Play(e, [s, t, u], P) == Next(Next(Next(e, s, P), t, P), u, P)
  {
    assert [s, t, u][1..] == [t, u];
    PlayTwo(Next(e, s, P), t, u, P);
  }

  const ACQUIRE_FIRST := [BeginAcquire(0), TryLock(0), StartLeading(0)]
  const ACQUIRE_SECOND := [BeginAcquire(1), TryLock(1), StartLeading(1)]

  lemma FirstLeads(P: int)
    ensures Play(Init(2), ACQUIRE_FIRST, P) == Alone(0, Heartbeat(0, HEALTH_CHECK, false, None), map[])
  {
    PlayThree(Init(2), BeginAcquire(0), TryLock(0), StartLeading(0), P);
    var e1 := Next(Init(2), BeginAcquire(0), P);
    assert e1.procs == [Trying(0), Idle] && e1.alive == {0};
    var e2 := Next(e1, TryLock(0), P);
    assert e2.procs == [Granted(0), Idle];
    assert Next(e2, StartLeading(0), P).procs == [Leading(0, true, Heartbeat(0, HEALTH_CHECK, false, None)), Idle];
  }

  /** The database gives the free lock to the second process, whose context is live at once. */
  lemma SecondLeads(now: int, b: Heartbeat, at: int, P: int)
    ensures var e := Play(Alone(now, b, map[0 := at]), ACQUIRE_SECOND, P);
      && e.now == now && e.lost == map[0 := at] && e.alive == {1}
      && e.procs == [Leading(0, true, b), Leading(1, true, Heartbeat(now, now + HEALTH_CHECK, false, None))]
  {
    var lost: map<nat, int> := map[0 := at];
    assert 0 in lost;
    var e := Alone(now, b, lost);
    PlayThree(e, BeginAcquire(1), TryLock(1), StartLeading(1), P);
    var e1 := Next(e, BeginAcquire(1), P);
    assert e1.procs == [Leading(0, true, b), Trying(1)] && e1.alive == {1};
    var e2 := Next(e1, TryLock(1), P);
    assert e2.procs == [Leading(0, true, b), Granted(1)];
  }

  /** While a ping is out, time passes up to its deadline; every tick on the way is taken. */
  lemma {:induction false} WaitForPing(now: int, b: Heartbeat, lost: map<nat, int>, to: int, P: int)
    returns (steps: seq<Step>, b': Heartbeat)
    requires lost == map[] || 0 in lost
    requires b.ping.Some? && now <= to <= b.ping.value.start + P && now <= b.nextTick
    ensures Play(Alone(now, b, lost), steps, P) == Alone(to, b', lost)
    ensures b' == b.(buffered := b'.buffered, nextTick := b'.nextTick) && to <= b'.nextTick
    ensures b.buffered || to > b.nextTick ==> b'.buffered
    decreases Max(0, to - b.nextTick)
  {
    if to <= b.nextTick {
      AloneWaits(now, b, lost, to, P);
      PlayOne(Alone(now, b, lost), Clock(to), P);
      steps, b' := [Clock(to)], b;
    } else {
      var t := b.nextTick;
      var ticked := b.(buffered := true, nextTick := t + HEALTH_CHECK);
      AloneWaits(now, b, lost, t, P);
      AloneActs(t, b, lost, P);
      PlayTwo(Alone(now, b, lost), Clock(t), Tick(0), P);
      var more;
      more, b' := WaitForPing(t, ticked, lost, to, P);
      steps := [Clock(t), Tick(0)] + more;
      PlayOn(Alone(now, b, lost), [Clock(t), Tick(0)], more, P);
    }
  }

  /** The session is lost just after the first ping began. */
  lemma LosesDuringPing(P: int) returns (steps: seq<Step>)
    requires P >= 0
    ensures var HC := HEALTH_CHECK;
      Play(Init(2), steps, P) == Alone(HC, Heartbeat(0, 2 * HC, false, Some(Ping(HC, false))), map[0 := HC])
  {
    var HC := HEALTH_CHECK;
    var b0 := Heartbeat(0, HC, false, None);
    var b1 := Heartbeat(0, 2 * HC, true, None);
    var b2 := Heartbeat(0, 2 * HC, false, Some(Ping(HC, false)));
    FirstLeads(P);
    AloneWaits(0, b0, map[], HC, P);
    AloneActs(HC, b0, map[], P);
    PlayTwo(Alone(0, b0, map[]), Clock(HC), Tick(0), P);
    AloneActs(HC, b1, map[], P);
    AloneLoses(HC, b2, P);
    PlayTwo(Alone(HC, b1, map[]), BeginPing(0), SessionLost(0), P);
    steps := ACQUIRE_FIRST + [Clock(HC), Tick(0)];
    PlayOn(Init(2), ACQUIRE_FIRST, [Clock(HC), Tick(0)], P);
    PlayOn(Init(2), steps, [BeginPing(0), SessionLost(0)], P);
    steps := steps + [BeginPing(0), SessionLost(0)];
  }

  /** That ping still succeeds, and the next one starts as late as possible. */
  lemma LateDoomedPing(P: int) returns (steps: seq<Step>, b: Heartbeat)
    requires P >= 0
    ensures var at := HEALTH_CHECK + Max(HEALTH_CHECK, P);
      && Play(Init(2), steps, P) == Alone(at, b, map[0 := HEALTH_CHECK])
      && b.ping == Some(Ping(at, true)) && at <= b.nextTick && b.started == 0
  {
    var HC := HEALTH_CHECK;
    var lost: map<nat, int> := map[0 := HC];
    assert 0 in lost;
    steps := LosesDuringPing(P);
    b := Heartbeat(0, 2 * HC, false, Some(Ping(HC, false)));
    var now := HC;
    if P > HC {
      var wait, b' := WaitForPing(now, b, lost, HC + P, P);
      PlayOn(Init(2), steps, wait, P);
      steps, b, now := steps + wait, b', HC + P;
      AloneActs(now, b, lost, P);
      PlayOne(Alone(now, b, lost), EndPing(0, true), P);
      PlayOn(Init(2), steps, [EndPing(0, true)], P);
      steps, b := steps + [EndPing(0, true)], b.(ping := None);
    } else {
      AloneActs(now, b, lost, P);
      PlayOne(Alone(now, b, lost), EndPing(0, true), P);
      PlayOn(Init(2), steps, [EndPing(0, true)], P);
      steps, b := steps + [EndPing(0, true)], b.(ping := None);
      AloneWaits(now, b, lost, 2 * HC, P);
      AloneActs(2 * HC, b, lost, P);
      PlayTwo(Alone(now, b, lost), Clock(2 * HC), Tick(0), P);
      PlayOn(Init(2), steps, [Clock(2 * HC), Tick(0)], P);
      steps, b, now := steps + [Clock(2 * HC), Tick(0)], b.(buffered := true, nextTick := 3 * HC), 2 * HC;
    }
    AloneActs(now, b, lost, P);
    PlayOne(Alone(now, b, lost), BeginPing(0), P);
    PlayOn(Init(2), steps, [BeginPing(0)], P);
    steps, b := steps + [BeginPing(0)], b.(buffered := false, ping := Some(Ping(now, true)));
  }

  /**
   For every P the bound is reached: a run in which a session is lost after its context started and
   its leader and the next one are both live max(HealthCheckInterval, P) + P later.
   */
  lemma OverlapAttained(P: int) returns (steps: seq<Step>)
    requires P >= 0
    ensures var e := After(2, steps, P);
      && LiveAt(e, 0) && LiveAt(e, 1) && e.procs[0].session in e.lost && e.procs[1].session in e.alive
      && e.procs[0].beat.started < e.lost[e.procs[0].session]
      && e.now == e.lost[e.procs[0].session] + Max(HEALTH_CHECK, P) + P
  {
    var lost: map<nat, int> := map[0 := HEALTH_CHECK];
    assert 0 in lost;
    var b;
    steps, b := LateDoomedPing(P);
    var at := HEALTH_CHECK + Max(HEALTH_CHECK, P);
    var wait, b' := WaitForPing(at, b, lost, at + P, P);
    PlayOn(Init(2), steps, wait, P);
    steps := steps + wait;
    SecondLeads(at + P, b', HEALTH_CHECK, P);
    PlayOn(Init(2), steps, ACQUIRE_SECOND, P);
    steps := steps + ACQUIRE_SECOND;
    PlayIsAfter(2, steps, P);
  }

  /** p and q are two leaders at once, after these steps of n processes. */
  predicate Overlap(n: nat, steps: seq<Step>, P: int, p: nat, q: nat) {
    p != q && LiveAt(After(n, steps, P), p) && LiveAt(After(n, steps, P), q)
  }

  /** In every run, two leaders at once means that one of them overstays its lost session, by at most bound. */
  ghost predicate OverlapsWithin(P: int, bound: int) {
    forall n, steps, p, q :: Overlap(n, steps, P, p, q) ==>
      Overstays(After(n, steps, P), p, bound) || Overstays(After(n, steps, P), q, bound)
  }

  /** max(HealthCheckInterval, P) + P is exactly how long leaders can overlap. */
  lemma OverlapsWithinIff(P: int, bound: int)
    requires P >= 0
    ensures OverlapsWithin(P, bound) <==> bound >= Max(2_000_000_000, P) + P
  {
    if bound >= Max(HEALTH_CHECK, P) + P {
      forall n, steps, p, q | Overlap(n, steps, P, p, q)
        ensures Overstays(After(n, steps, P), p, bound) || Overstays(After(n, steps, P), q, bound)
      {
        OverlapBounded(n, steps, P, p, q);
      }
    } else {
      var steps := OverlapAttained(P);
      assert Overlap(2, steps, P, 0, 1);
    }
  }

  /** So HealthCheckInterval + P bounds the overlap if and only if pings are no slower than the interval. */
  lemma IntervalPlusPingIff(P: int)
    requires P >= 0
    ensures OverlapsWithin(P, HEALTH_CHECK + P) <==> P <= HEALTH_CHECK
  {
    OverlapsWithinIff(P, HEALTH_CHECK + P);
  }
}
