/**
 One compiled subscription (internal/webhook/manager.go): the gates a match passes
 (cooldown, daily budget, debounce) and the draining of a debounce window into one batch.

 The element type T is what one match contributes to a batch. It is a parameter because
 the gates never look inside it.
 */
module Subscription {
  import opened Base

  /** The immutable, compiled part of a subscription. */
  datatype Rules = Rules(
    id: Id, tenant: Id, account: Id, channel: Id,
    url: string, secret: string, match_: string,
    ctxLines: int, debounceMs: int, cooldownMs: int, dailyMax: int)

  /**
   The debounceTimer field together with the life of the runtime timer behind it.
   The field is nil exactly for NoTimer. Fired means that the runtime has started the
   callback, which still waits for the subscription's lock; Stopped that Stop won the race,
   so the callback will never run although the field stays set.
   */
  datatype Timer = NoTimer | Armed(due: int) | Fired(due: int) | Stopped
  {
    function Stop(): Timer {
      if Armed? then Stopped else this
    }
  }

  /** The mutable runtime state guarded by the subscription's lock. */
  datatype Runtime<T> = Runtime(
    timer: Timer, pending: seq<T>, context: seq<T>, chanName: string, lastFire: Option<int>)

  /** What one broadcast hands to a matching subscription. */
  datatype Event<T> = Event(channel: Id, channelName: string, item: T, context: seq<T>)

  /** A fireTask: one batch of matches with the context captured for it. */
  datatype Batch<T> = Batch(channelName: string, matches: seq<T>, context: seq<T>)

  datatype Verdict =
    | Cooling          // dropped, fired too recently
    | Exhausted        // dropped, a budget_exhausted row is written
    | Joined           // added to the open window
    | Opened           // opened a debounce window
    | Drained          // no debounce: a batch to enqueue at once
  {
    predicate Accepts() { Joined? || Opened? || Drained? }
    predicate Opens() { Opened? || Drained? }
  }

  function Fresh<T>(): Runtime<T> {
    Runtime(NoTimer, [], [], "", None)
  }

  predicate InCooldown(r: Rules, lastFire: Option<int>, now: int) {
    r.cooldownMs > 0 && lastFire.Some? && now - lastFire.value < Millis(r.cooldownMs)
  }

  /** count is None when the store's count query failed, which lets the match through. */
  predicate OverBudget(r: Rules, count: Option<int>) {
    r.dailyMax > 0 && count.Some? && count.value >= r.dailyMax
  }

  /** The decision the gates reach, in the source's order. */
  function Decide<T>(r: Rules, s: Runtime<T>, now: int, count: Option<int>): Verdict {
    if InCooldown(r, s.lastFire, now) then Cooling
    else if OverBudget(r, count) then Exhausted
    else if s.timer != NoTimer then Joined
    else if Millis(r.debounceMs) > 0 then Opened
    else Drained
  }

  /** The match joins the pending ones; the context is captured once per window. */
  function Gather<T>(r: Rules, s: Runtime<T>, ev: Event<T>): Runtime<T> {
    s.(pending := s.pending + [ev.item],
       chanName := ev.channelName,
       context := if s.context == [] && r.ctxLines > 0 then LastN(ev.context, r.ctxLines) else s.context)
  }

  function BatchOf<T>(s: Runtime<T>): Batch<T> {
    Batch(s.chanName, s.pending, s.context)
  }

  function Cleared<T>(s: Runtime<T>, now: int): Runtime<T> {
    Runtime(s.timer, [], [], "", Some(now))
  }

  /** The runtime after an accepted match. */
  function Admit<T>(r: Rules, s: Runtime<T>, ev: Event<T>, now: int, v: Verdict): Runtime<T> {
    var g := Gather(r, s, ev);
    match v
    case Opened => g.(timer := Armed(now + Millis(r.debounceMs)))
    case Drained => Cleared(g, now)
    case _ => g
  }

  function DrainBatch<T>(s: Runtime<T>): Option<Batch<T>> {
    if s.pending == [] then None else Some(BatchOf(s))
  }

  function DrainState<T>(s: Runtime<T>, now: int): Runtime<T> {
    if s.pending == [] then s else Cleared(s, now)
  }

  /** The live object that the manager caches and mutates in place. */
  class LiveSubscription<T> {
    const rules: Rules
    var debounceTimer: Timer
    var pendingMatches: seq<T>
    var pendingContext: seq<T>
    var pendingChanName: string
    var lastFire: Option<int>
    var consec4xx: nat

    function State(): Runtime<T>
      reads this
    {
      Runtime(debounceTimer, pendingMatches, pendingContext, pendingChanName, lastFire)
    }

    constructor (rules: Rules)
      ensures this.rules == rules && State() == Fresh() && consec4xx == 0
    {
      this.rules := rules;
      debounceTimer, lastFire := NoTimer, None;
      pendingMatches, pendingContext, pendingChanName := [], [], "";
      consec4xx := 0;
    }

    /** The gates in the source's order; count is the answer of the budget query. */
    method HandleMatch(ev: Event<T>, now: int, count: Option<int>)
      returns (verdict: Verdict, task: Option<Batch<T>>)
      modifies this
      // the verdict, on the fields
      ensures var cooling := rules.cooldownMs > 0 && old(lastFire).Some? && now - old(lastFire).value < Millis(rules.cooldownMs);
        var exhausted := rules.dailyMax > 0 && count.Some? && count.value >= rules.dailyMax;
        && (verdict == Cooling <==> cooling)
        && (verdict == Exhausted <==> !cooling && exhausted)
        && (verdict == Joined <==> !cooling && !exhausted && old(debounceTimer) != NoTimer)
        && (verdict == Opened <==> !cooling && !exhausted && old(debounceTimer) == NoTimer && Millis(rules.debounceMs) > 0)
        && (verdict == Drained <==> !cooling && !exhausted && old(debounceTimer) == NoTimer && Millis(rules.debounceMs) <= 0)
      // what it does to them
      ensures verdict in {Cooling, Exhausted} ==>
        && debounceTimer == old(debounceTimer) && pendingMatches == old(pendingMatches)
        && pendingContext == old(pendingContext) && pendingChanName == old(pendingChanName) && lastFire == old(lastFire)
      ensures verdict in {Joined, Opened} ==>
        && debounceTimer == (if verdict == Opened then Armed(now + Millis(rules.debounceMs)) else old(debounceTimer))
        && pendingMatches == old(pendingMatches) + [ev.item] && pendingChanName == ev.channelName && lastFire == old(lastFire)
        && pendingContext == if old(pendingContext) == [] && rules.ctxLines > 0
                             then LastN(ev.context, rules.ctxLines) else old(pendingContext)
      ensures verdict == Drained ==>
        && debounceTimer == NoTimer && pendingMatches == [] && pendingContext == [] && lastFire == Some(now)
        && task.Some? && task.value.matches == old(pendingMatches) + [ev.item] && task.value.channelName == ev.channelName
        && task.value.context == if old(pendingContext) == [] && rules.ctxLines > 0
                                 then LastN(ev.context, rules.ctxLines) else old(pendingContext)
      ensures verdict != Drained ==> task == None
      // and as the engine's transition
      ensures verdict == Decide(rules, old(State()), now, count)
      ensures State() == if verdict.Accepts() then Admit(rules, old(State()), ev, now, verdict) else old(State())
      ensures task == if verdict.Drained? then Some(BatchOf(Gather(rules, old(State()), ev))) else None
      ensures consec4xx == old(consec4xx)
    {
      if rules.cooldownMs > 0 && lastFire.Some? {
        if now - lastFire.value < Millis(rules.cooldownMs) {
          return Cooling, None;
        }
      }
      if rules.dailyMax > 0 {
        if count.Some? && count.value >= rules.dailyMax {
          return Exhausted, None;
        }
      }
      verdict, task := TakeMatch(ev, now);
    }

    /** The match joins the open window, opens one, or is drained at once when there is no debounce. */
    method TakeMatch(ev: Event<T>, now: int) returns (verdict: Verdict, task: Option<Batch<T>>)
      modifies this
      ensures verdict == if old(debounceTimer) != NoTimer then Joined
                         else if Millis(rules.debounceMs) > 0 then Opened else Drained
      ensures State() == Admit(rules, old(State()), ev, now, verdict)
      ensures task == if verdict.Drained? then Some(BatchOf(Gather(rules, old(State()), ev))) else None
      ensures consec4xx == old(consec4xx)
    {
      pendingMatches := pendingMatches + [ev.item];
      pendingChanName := ev.channelName;
      CaptureContext(ev);
      if debounceTimer != NoTimer {
        return Joined, None;
      }
      var delay := Millis(rules.debounceMs);
      if delay > 0 {
        debounceTimer := Armed(now + delay);
        return Opened, None;
      }
      verdict := Drained;
      task := DrainPending(now);
    }

    method CaptureContext(ev: Event<T>)
      modifies this`pendingContext
      ensures pendingContext == if old(pendingContext) == [] && rules.ctxLines > 0
                                then LastN(ev.context, rules.ctxLines) else old(pendingContext)
    {
      if pendingContext == [] && rules.ctxLines > 0 && |ev.context| > 0 {
        var take := rules.ctxLines;
        if take > |ev.context| {
          take := |ev.context|;
        }
        pendingContext := ev.context[|ev.context| - take..];
      }
    }

    method DrainPending(now: int) returns (task: Option<Batch<T>>)
      modifies this
      ensures old(pendingMatches) == [] ==>
        && task == None && pendingContext == old(pendingContext) && pendingChanName == old(pendingChanName)
        && lastFire == old(lastFire)
      ensures old(pendingMatches) != [] ==>
        && task == Some(Batch(old(pendingChanName), old(pendingMatches), old(pendingContext)))
        && pendingContext == [] && lastFire == Some(now)
      ensures pendingMatches == [] && debounceTimer == old(debounceTimer)
      ensures State() == DrainState(old(State()), now) && task == DrainBatch(old(State()))
      ensures consec4xx == old(consec4xx)
    {
      if |pendingMatches| == 0 {
        return None;
      }
      task := Some(Batch(pendingChanName, pendingMatches, pendingContext));
      pendingMatches, pendingContext, pendingChanName := [], [], "";
      lastFire := Some(now);
    }

    method FlushDebounced(now: int) returns (task: Option<Batch<T>>)
      modifies this
      ensures debounceTimer == NoTimer && pendingMatches == []
      ensures task == if old(pendingMatches) == [] then None
                      else Some(Batch(old(pendingChanName), old(pendingMatches), old(pendingContext)))
      ensures lastFire == if old(pendingMatches) == [] then old(lastFire) else Some(now)
      ensures State() == DrainState(old(State()).(timer := NoTimer), now) && task == DrainBatch(old(State()))
      ensures consec4xx == old(consec4xx)
    {
      debounceTimer := NoTimer;
      task := DrainPending(now);
    }

    /** debounceTimer.Stop(), as AddOrUpdate and Remove call it on the version they retire. */
    method StopTimer()
      modifies this`debounceTimer
      ensures State() == old(State()).(timer := old(State()).timer.Stop())
    {
      if debounceTimer != NoTimer {
        debounceTimer := debounceTimer.Stop();
      }
    }
  }
}
