/**
 One delivery (internal/webhook/worker.go, deliver): the retry loop with its exponential
 backoff, and the bounded queue in front of the workers (enqueue).
 */
module Delivery {
  import opened Base
  import Engine
  import Subscription

  datatype Kind = Ok | Transient | Permanent

  datatype Status = StatusOk | StatusDropped4xx | StatusFailed

  datatype Record = Record(status: Status, attempts: int)

  function Pow2(n: nat): nat {
    if n == 0 then 1 else 2 * Pow2(n - 1)
  }

  /** Go's 1 << n on an int64: bits shifted out are lost. */
  function ShiftLeft(n: nat): int {
    if n < 64 then Wrap64(Pow2(n)) else 0
  }

  const STEP := 250 * MILLISECOND
  const CEILING := 5 * SECOND

  /** The wait after the given attempt, as the source computes it in 64 bits. */
  function Backoff(attempt: int): int
    requires attempt >= 1
  {
    var delay := Wrap64(ShiftLeft(attempt - 1) * STEP);
    if delay > CEILING then CEILING else delay
  }

  /** The documented wait: 250 ms doubled per attempt, at most 5 s. */
  function DocumentedWait(attempt: int): int
    requires attempt >= 1
  {
    Min(STEP * Pow2(attempt - 1), CEILING)
  }

  lemma {:induction false} Pow2Grows(m: nat, n: nat)
    requires m <= n
    ensures Pow2(m) <= Pow2(n)
    decreases n - m
  {
    if m < n { Pow2Grows(m, n - 1); }
  }

  lemma Pow2Add(m: nat, n: nat)
    ensures Pow2(m + n) == Pow2(m) * Pow2(n)
  {
    if m > 0 {
      Pow2Add(m - 1, n);
      assert Pow2(m + n) == 2 * (Pow2(m - 1) * Pow2(n));
    }
  }

  lemma Pow2Values()
    ensures Pow2(5) == 32 && Pow2(35) == 34_359_738_368 && Pow2(36) == 68_719_476_736
  {
    Pow2Add(5, 5);
    Pow2Add(10, 10);
    Pow2Add(20, 10);
    Pow2Add(30, 5);
  }

  /** Up to the 36th attempt the product fits and the wait is the documented one. */
  lemma WaitAsDocumented(attempt: int)
    requires 1 <= attempt <= 36
    ensures Backoff(attempt) == DocumentedWait(attempt) == Min(250_000_000 * Pow2(attempt - 1), 5_000_000_000)
  {
    Pow2Values();
    Pow2Grows(attempt - 1, 35);
    var p := Pow2(attempt - 1);
    assert p <= 34_359_738_368;
    WrapFits(p);
    WrapFits(p * STEP);
    assert ShiftLeft(attempt - 1) == p;
  }

  /** After the 37th attempt it has wrapped to a negative duration, which does not wait at all. */
  lemma WaitWraps()
    ensures Backoff(37) < 0
  {
    Pow2Values();
  }

  /**
   All waits of a delivery are the documented ones exactly when it makes at most 37 attempts
   (the last attempt is not followed by a wait).
   */
  lemma WaitsAsDocumentedIff(maxRetries: int)
    ensures (forall i :: 1 <= i < maxRetries ==> Backoff(i) == DocumentedWait(i)) <==> maxRetries <= 37
  {
    if maxRetries <= 37 {
      forall i | 1 <= i < maxRetries ensures Backoff(i) == DocumentedWait(i) { WaitAsDocumented(i); }
    } else {
      WaitWraps();
      assert DocumentedWait(37) >= 0;
    }
  }

  /** The documented waits never decrease. */
  lemma WaitsNeverDecrease(i: int, j: int)
    requires 1 <= i <= j
    ensures 0 < DocumentedWait(i) <= DocumentedWait(j) <= CEILING
  {
    Pow2Grows(0, i - 1);
    Pow2Grows(i - 1, j - 1);
  }

  function Sum(s: seq<int>): int {
    if s == [] then 0 else Sum(s[..|s| - 1]) + s[|s| - 1]
  }

  lemma {:induction false} SumAtMost(s: seq<int>, bound: int)
    requires forall i :: 0 <= i < |s| ==> s[i] <= bound
    ensures Sum(s) <= bound * |s|
  {
    if s != [] {
      SumAtMost(s[..|s| - 1], bound);
      assert bound * |s| == bound * (|s| - 1) + bound;
    }
  }

  /** Config.applyDefaults for MaxRetries. */
  function WithDefault(maxRetries: int): int {
    if maxRetries == 0 then 3 else maxRetries
  }

  /**
   deliver: send answers attempt i with send(i), and cancelled(i) says that the context ended
   during the wait after attempt i. Every recordFire call, Send and wait is listed in order.
   */
  method Deliver(configured: int, marshals: bool, hasTransport: bool, send: int -> Kind, cancelled: int -> bool)
    returns (records: seq<Record>, sends: seq<Kind>, waits: seq<int>)
    ensures |records| == 1
    // the row tells the number of sends, unless a negative MaxRetries is configured
    ensures records[0].attempts == |sends| <==> configured >= 0 || !marshals || !hasTransport
    ensures |sends| <= if configured == 0 then 3 else Max(0, configured)
    // the sends are send(1), send(2), ... up to the first that is not transient
    ensures forall i :: 0 <= i < |sends| ==> sends[i] == send(i + 1)
    ensures forall i :: 0 <= i < |sends| - 1 ==> sends[i] == Transient
    // and the row tells how the last one ended
    ensures records[0].status == StatusOk <==> sends != [] && sends[|sends| - 1] == Ok
    ensures records[0].status == StatusDropped4xx <==> sends != [] && sends[|sends| - 1] == Permanent
    // it gives up early only when it cannot send at all or is cancelled in a wait
    ensures records[0].status == StatusFailed && marshals && hasTransport ==>
              |sends| == (if configured == 0 then 3 else Max(0, configured)) || cancelled(|sends|)
    // between two sends there is one wait; a cancelled delivery ends in one
    ensures forall i :: 0 <= i < |waits| ==> waits[i] == Backoff(i + 1)
    ensures |waits| == Max(0, |sends| - 1) || (|waits| == |sends| < WithDefault(configured) && cancelled(|sends|))
    ensures forall i :: 1 <= i < |waits| ==> !cancelled(i)
  {
    var maxRetries := WithDefault(configured);
    records, sends, waits := [], [], [];
    if !marshals || !hasTransport {
      records := records + [Record(StatusFailed, 0)];
      return;
    }
    var attempt := 1;
    while attempt <= maxRetries
      invariant 1 <= attempt <= Max(0, maxRetries) + 1
      invariant records == []
      invariant |sends| == attempt - 1
      invariant forall i :: 0 <= i < |sends| ==> sends[i] == send(i + 1) && sends[i] == Transient
      invariant |waits| == if attempt <= maxRetries then |sends| else Max(0, |sends| - 1)
      invariant forall i :: 0 <= i < |waits| ==> waits[i] == Backoff(i + 1)
      invariant forall i :: 1 <= i <= |waits| ==> !cancelled(i)
    {
      var res := send(attempt);
      sends := sends + [res];
      match res {
        case Ok =>
          records := records + [Record(StatusOk, attempt)];
          return;
        case Permanent =>
          records := records + [Record(StatusDropped4xx, attempt)];
          return;
        case Transient =>
          if attempt < maxRetries {
            var delay := Wrap64(ShiftLeft(attempt - 1) * STEP);
            if delay > CEILING {
              delay := CEILING;
            }
            waits := waits + [delay];
            if cancelled(attempt) {
              records := records + [Record(StatusFailed, attempt)];
              return;
            }
          }
      }
      attempt := attempt + 1;
    }
    records := records + [Record(StatusFailed, maxRetries)];
  }

  function EndingOf(status: Status): Engine.Ending {
    match status
    case StatusOk => Engine.Delivered
    case StatusDropped4xx => Engine.Refused
    case StatusFailed => Engine.GaveUp
  }

  /**
   deliver with its bookkeeping: the subscription's failure counter and the verdict on auto-disable
   follow the recorded status as the engine's step for it says.
   */
  method DeliverFor<T>(sub: Subscription.LiveSubscription<T>, c: Engine.Config, configured: int, marshals: bool,
                       hasTransport: bool, send: int -> Kind, cancelled: int -> bool)
    returns (records: seq<Record>, disable: bool)
    modifies sub`consec4xx
    ensures |records| == 1
    ensures records[0].status == StatusOk ==> sub.consec4xx == 0
    ensures records[0].status == StatusDropped4xx ==> sub.consec4xx == old(sub.consec4xx) + 1
    ensures records[0].status == StatusFailed ==> sub.consec4xx == old(sub.consec4xx)
    ensures disable <==> records[0].status == StatusDropped4xx && old(sub.consec4xx) + 1 >= c.threshold
    // which is what the engine's step does
    ensures sub.consec4xx == Engine.NextConsec(old(sub.consec4xx), EndingOf(records[0].status))
    ensures disable <==> Engine.Disables(c, old(sub.consec4xx), EndingOf(records[0].status))
  {
    var sends, waits;
    records, sends, waits := Deliver(configured, marshals, hasTransport, send, cancelled);
    disable := false;
    match records[0].status {
      case StatusOk => sub.consec4xx := 0;
      case StatusDropped4xx =>
        sub.consec4xx := sub.consec4xx + 1;
        disable := sub.consec4xx >= c.threshold;
      case StatusFailed =>
    }
  }

  /** In total a delivery with documented waits waits at most 5 s per retry. */
  lemma {:induction false} TotalWaitBounded(maxRetries: int, waits: seq<int>)
    requires 1 <= maxRetries <= 37 && |waits| < maxRetries
    requires forall i :: 0 <= i < |waits| ==> waits[i] == Backoff(i + 1)
    ensures forall i, j :: 0 <= i <= j < |waits| ==> waits[i] <= waits[j]
    ensures Sum(waits) <= CEILING * (maxRetries - 1)
  {
    forall i, j | 0 <= i <= j < |waits| ensures waits[i] <= waits[j] {
      WaitAsDocumented(i + 1);
      WaitAsDocumented(j + 1);
      WaitsNeverDecrease(i + 1, j + 1);
    }
    SumAtMost(waits, CEILING);
  }

  /** The bounded channel between the producers and the workers. */
  class WorkerPool {
    const depth: nat
    var tasks: seq<Engine.Task>
    var dropped: nat
    var stopped: bool

    constructor (depth: nat)
      ensures this.depth == depth && tasks == [] && dropped == 0 && !stopped
    {
      this.depth := depth;
      tasks, dropped, stopped := [], 0, false;
    }

    /** This pool shows the queue, the drop count and the stop flag of p. */
    ghost predicate Shows(c: Engine.Config, p: Engine.Pool)
      reads this
    {
      depth == c.queueDepth && tasks == p.queue && dropped == |p.overflow| && stopped == p.stopping
    }

    /** Never blocks: a full queue drops and counts the task, a stopped pool discards it. */
    method Enqueue(task: Engine.Task, ghost c: Engine.Config, ghost p: Engine.Pool, ghost i: nat)
      requires Shows(c, p) && i < |p.held| && p.held[i] == task
      modifies this
      ensures stopped == old(stopped)
      ensures stopped || old(|tasks|) >= depth ==> tasks == old(tasks)
      ensures !stopped && old(|tasks|) < depth ==> tasks == old(tasks) + [task]
      ensures dropped == old(dropped) + if !stopped && old(|tasks|) >= depth then 1 else 0
      ensures Shows(c, Engine.Move(c, p, Engine.PoolMove.Enqueue(i)))
    {
      if stopped {
        return;
      }
      if |tasks| < depth {
        tasks := tasks + [task];
      } else {
        dropped := dropped + 1;
      }
    }

    /** A worker receives the oldest task. */
    method Receive(ghost c: Engine.Config, ghost p: Engine.Pool) returns (task: Engine.Task)
      requires Shows(c, p) && tasks != [] && p.idle > 0
      modifies this
      ensures old(tasks) == [task] + tasks
      ensures dropped == old(dropped) && stopped == old(stopped)
      ensures Shows(c, Engine.Move(c, p, Engine.PoolMove.Take))
    {
      task := tasks[0];
      tasks := tasks[1..];
    }

    method Stop(ghost c: Engine.Config, ghost p: Engine.Pool)
      requires Shows(c, p)
      modifies this
      ensures stopped && tasks == old(tasks) && dropped == old(dropped)
      ensures Shows(c, Engine.Move(c, p, Engine.PoolMove.Stop))
    {
      stopped := true;
    }
  }
}
