/**
 The background writer of message history (internal/server/history.go): a bounded queue between the
 message path, which must not block, and the store.
 */
module HistoryWriter {
  import opened Base
  import opened Paging

  const DEPTH := 4096

  class Writer {
    var queue: seq<Message>
    var rows: seq<Message>
    var dropped: nat

    constructor ()
      ensures queue == [] && rows == [] && dropped == 0
    {
      queue, rows, dropped := [], [], 0;
    }

    /** Never blocks: a message for a full queue is dropped and counted. */
    method Enqueue(m: Message)
      modifies this`queue, this`dropped
      ensures queue == if |old(queue)| < DEPTH then old(queue) + [m] else old(queue)
      ensures dropped == old(dropped) + if |old(queue)| < DEPTH then 0 else 1
    {
      if |queue| < DEPTH {
        queue := queue + [m];
      } else {
        dropped := dropped + 1;
      }
    }

    /** A burst that arrives while nothing is written: what fits survives, which is its beginning. */
    method Burst(ms: seq<Message>)
      modifies this`queue, this`dropped
      requires |queue| <= DEPTH
      ensures var room := DEPTH - |old(queue)|;
        && queue == old(queue) + ms[..Min(room, |ms|)]
        && dropped == old(dropped) + Max(0, |ms| - room)
    {
      for i := 0 to |ms|
        invariant |queue| <= DEPTH
        invariant queue == old(queue) + ms[..Min(DEPTH - |old(queue)|, i)]
        invariant dropped == old(dropped) + Max(0, i - (DEPTH - |old(queue)|))
      {
        Enqueue(ms[i]);
      }
    }

    /** One RecordMessage call; a failed one is counted as a drop. */
    method Write(ok: bool)
      requires queue != []
      modifies this
      ensures queue == old(queue)[1..]
      ensures rows == old(rows) + if ok then [old(queue)[0]] else []
      ensures dropped == old(dropped) + if ok then 0 else 1
    {
      var m := queue[0];
      queue := queue[1..];
      if ok {
        rows := rows + [m];
      } else {
        dropped := dropped + 1;
      }
    }

    /** What is written on shutdown before the deadline, when the store takes everything. */
    method Drain(writes: nat)
      modifies this
      ensures var n := Min(writes, |old(queue)|);
        rows == old(rows) + old(queue)[..n] && queue == old(queue)[n..] && dropped == old(dropped)
    {
      var n := 0;
      while n < writes && queue != []
        invariant n <= writes && n <= |old(queue)|
        invariant queue == old(queue)[n..] && rows == old(rows) + old(queue)[..n] && dropped == old(dropped)
      {
        Write(true);
        n := n + 1;
      }
    }
  }

  // Whole runs, with messages numbered as they are offered

  datatype Step = Offer | Written(ok: bool)

  datatype State = State(offered: nat, queue: seq<nat>, stored: seq<nat>, dropped: nat)

  function Next(w: State, s: Step): State {
    match s
    case Offer =>
      if |w.queue| < DEPTH then w.(offered := w.offered + 1, queue := w.queue + [w.offered])
      else w.(offered := w.offered + 1, dropped := w.dropped + 1)
    case Written(ok) =>
      if w.queue == [] then w
      else if ok then w.(queue := w.queue[1..], stored := w.stored + [w.queue[0]])
      else w.(queue := w.queue[1..], dropped := w.dropped + 1)
  }

  function After(steps: seq<Step>): State {
    if steps == [] then State(0, [], [], 0) else Next(After(steps[..|steps| - 1]), steps[|steps| - 1])
  }

  ghost predicate Ascending(s: seq<nat>, bound: nat) {
    && (forall i, j :: 0 <= i < j < |s| ==> s[i] < s[j])
    && forall i :: 0 <= i < |s| ==> s[i] < bound
  }

  lemma DropsOne(a: seq<nat>, b: seq<nat>, bound: nat)
    requires Ascending(a + b, bound) && b != []
    ensures Ascending(a + b[1..], bound)
  {
    assert a + b[1..] == (a + b)[..|a|] + (a + b)[|a| + 1..];
  }

  /**
   In every run, each message offered is stored, still queued, or counted as dropped; and stored and
   queued messages keep the order in which they were offered.
   */
  lemma {:induction false} OfferedAccountedFor(steps: seq<Step>)
    ensures var w := After(steps);
      && w.offered == |w.stored| + |w.queue| + w.dropped && |w.queue| <= DEPTH
      && Ascending(w.stored + w.queue, w.offered)
  {
    if steps != [] {
      var w, s := After(steps[..|steps| - 1]), steps[|steps| - 1];
      OfferedAccountedFor(steps[..|steps| - 1]);
      match s
      case Offer => assert w.stored + (w.queue + [w.offered]) == (w.stored + w.queue) + [w.offered];
      case Written(ok) =>
        if w.queue != [] {
          DropsOne(w.stored, w.queue, w.offered);
          assert (w.stored + [w.queue[0]]) + w.queue[1..] == w.stored + w.queue;
        }
    }
  }

  /**
   A burst into an empty queue keeps its first 4096 messages and drops the rest, contrary to the
   comment that the oldest pending ones are dropped.
   */
  lemma {:induction false} BurstKeepsFirst(n: nat)
    ensures var w := After(seq(n, _ => Offer));
      && w.queue == seq(Min(n, 4096), i => i) && w.dropped == Max(0, n - 4096)
      && w.offered == n && w.stored == []
  {
    if n > 0 {
      var steps := seq(n, _ => Offer);
      BurstKeepsFirst(n - 1);
      assert steps[..n - 1] == seq(n - 1, _ => Offer);
    }
  }
}
