/**
 The context lines a fired payload carries: one channel whose events are handled one at a time,
 its history, and one compiled subscription watching it (internal/server/conn.go, handleMsg, with
 internal/webhook/manager.go, handleMatch).
 */
module PayloadContext {
  import opened Base
  import opened Channels
  import opened Subscription

  /** One drained batch and the positions its matches have in the channel's log. */
  datatype Fire = Fire(batch: Batch<HistoryEntry>, picks: seq<nat>)

  /** picks are the log positions of the pending matches. */
  datatype State = State(
    log: seq<HistoryEntry>, rt: Runtime<HistoryEntry>, picks: seq<nat>, fires: seq<Fire>)

  datatype Step =
    | Say(entry: HistoryEntry, hit: bool, now: int, count: Option<int>) // hit: it matches and the bot is not paused
    | Flush(now: int)

  /** What handleMsg and PublishInbound hand to the webhooks: the history before the message. */
  function EventOf(log: seq<HistoryEntry>, entry: HistoryEntry): Event<HistoryEntry> {
    Event(0, "", entry, Recent(log, DEPTH))
  }

  function Drain(s: State, batch: Option<Batch<HistoryEntry>>): State {
    if batch.None? then s else s.(picks := [], fires := s.fires + [Fire(batch.value, s.picks)])
  }

  function Match(r: Rules, s: State, entry: HistoryEntry, now: int, count: Option<int>): State {
    var ev := EventOf(s.log, entry);
    var v := Decide(r, s.rt, now, count);
    var said := s.(log := s.log + [entry]);
    if !v.Accepts() then said
    else
      var picked := said.(rt := Admit(r, s.rt, ev, now, v), picks := s.picks + [|s.log|]);
      if v.Drained? then Drain(picked, DrainBatch(Gather(r, s.rt, ev))) else picked
  }

  function Next(r: Rules, s: State, step: Step): State {
    match step
    case Say(entry, hit, now, count) =>
      if hit then Match(r, s, entry, now, count) else s.(log := s.log + [entry])
    case Flush(now) =>
      if s.rt.timer == NoTimer then s
      else Drain(s.(rt := DrainState(s.rt.(timer := NoTimer), now)), DrainBatch(s.rt))
  }

  function After(r: Rules, steps: seq<Step>): State {
    if steps == [] then State([], Fresh(), [], []) else Next(r, After(r, steps[..|steps| - 1]), steps[|steps| - 1])
  }

  /** No message looks like an unused slot of the ring. */
  ghost predicate Spoken(steps: seq<Step>) {
    forall i :: 0 <= i < |steps| && steps[i].Say? ==> !steps[i].entry.Blank()
  }

  ghost predicate Solid(log: seq<HistoryEntry>) {
    forall i :: 0 <= i < |log| ==> !log[i].Blank()
  }

  /** The messages just before position p that a subscription asking for ctxLines lines gets. */
  function Preceding(log: seq<HistoryEntry>, p: nat, ctxLines: int): seq<HistoryEntry>
    requires p <= |log|
  {
    LastN(log[..p], Min(ctxLines, DEPTH))
  }

  /** The match at which the window's context is taken: the first one that has messages before it. */
  function ContextAt(picks: seq<nat>): nat
    requires picks != []
  {
    if picks[0] == 0 && |picks| > 1 then picks[1] else picks[0]
  }

  ghost predicate Ascending(picks: seq<nat>, bound: nat) {
    && (forall i, j :: 0 <= i < j < |picks| ==> picks[i] < picks[j])
    && (forall i :: 0 <= i < |picks| ==> picks[i] < bound)
  }

  function PickedFrom(log: seq<HistoryEntry>, picks: seq<nat>): seq<HistoryEntry>
    requires forall i :: 0 <= i < |picks| ==> picks[i] < |log|
  {
    seq(|picks|, i requires 0 <= i < |picks| => log[picks[i]])
  }

  /** matches and context belong to a window whose matches are at picks. */
  ghost predicate Window(log: seq<HistoryEntry>, picks: seq<nat>, ctxLines: int,
                         matches: seq<HistoryEntry>, context: seq<HistoryEntry>) {
    && Ascending(picks, |log|)
    && matches == PickedFrom(log, picks)
    && context == if picks == [] then [] else Preceding(log, ContextAt(picks), ctxLines)
  }

  ghost predicate FireOk(log: seq<HistoryEntry>, ctxLines: int, f: Fire) {
    f.picks != [] && Window(log, f.picks, ctxLines, f.batch.matches, f.batch.context)
  }

  ghost predicate Ok(r: Rules, s: State) {
    && Solid(s.log)
    && Window(s.log, s.picks, r.ctxLines, s.rt.pending, s.rt.context)
    && forall i :: 0 <= i < |s.fires| ==> FireOk(s.log, r.ctxLines, s.fires[i])
  }

  lemma WindowGrows(log: seq<HistoryEntry>, entry: HistoryEntry, picks: seq<nat>, ctxLines: int,
                    matches: seq<HistoryEntry>, context: seq<HistoryEntry>)
    requires Window(log, picks, ctxLines, matches, context)
    ensures Window(log + [entry], picks, ctxLines, matches, context)
  {
    var log' := log + [entry];
    assert PickedFrom(log', picks) == PickedFrom(log, picks);
    if picks != [] {
      assert log'[..ContextAt(picks)] == log[..ContextAt(picks)];
    }
  }

  /** What CaptureContext takes from the ring is what precedes the message in the log. */
  lemma CapturedIsPreceding(log: seq<HistoryEntry>, ctxLines: int)
    requires Solid(log) && ctxLines > 0
    ensures LastN(Recent(log, DEPTH), ctxLines) == Preceding(log, |log|, ctxLines)
  {
    assert log[..|log|] == log;
    RecentIsLastEntriesIff(log, DEPTH);
  }

  lemma PickedGrows(log: seq<HistoryEntry>, entry: HistoryEntry, picks: seq<nat>)
    requires Ascending(picks, |log|)
    ensures Ascending(picks + [|log|], |log| + 1)
    ensures PickedFrom(log + [entry], picks + [|log|]) == PickedFrom(log, picks) + [entry]
  {
  }

  /** The context is that of the window so far, or is taken now if there was none. */
  lemma ContextGrows(log: seq<HistoryEntry>, entry: HistoryEntry, picks: seq<nat>, ctxLines: int, context: seq<HistoryEntry>)
    requires Ascending(picks, |log|) && Solid(log)
    requires context == if picks == [] then [] else Preceding(log, ContextAt(picks), ctxLines)
    ensures var context' := if context == [] && ctxLines > 0 then LastN(Recent(log, DEPTH), ctxLines) else context;
      context' == Preceding(log + [entry], ContextAt(picks + [|log|]), ctxLines)
  {
    var picks' := picks + [|log|];
    var at := ContextAt(picks');
    assert (log + [entry])[..at] == log[..at];
    assert log[..0] == [];
    if ctxLines > 0 {
      CapturedIsPreceding(log, ctxLines);
    }
  }

  /** A match at the end of the log joins the window. */
  lemma WindowGathers(r: Rules, s: State, entry: HistoryEntry)
    requires Ok(r, s) && !entry.Blank()
    ensures var g := Gather(r, s.rt, EventOf(s.log, entry));
      Window(s.log + [entry], s.picks + [|s.log|], r.ctxLines, g.pending, g.context)
  {
    PickedGrows(s.log, entry, s.picks);
    ContextGrows(s.log, entry, s.picks, r.ctxLines, s.rt.context);
  }

  /** Fires stay what they are when the channel goes on. */
  lemma FiresGrow(r: Rules, s: State, entry: HistoryEntry)
    requires Ok(r, s)
    ensures forall i :: 0 <= i < |s.fires| ==> FireOk(s.log + [entry], r.ctxLines, s.fires[i])
  {
    forall i | 0 <= i < |s.fires| ensures FireOk(s.log + [entry], r.ctxLines, s.fires[i]) {
      var f := s.fires[i];
      WindowGrows(s.log, entry, f.picks, r.ctxLines, f.batch.matches, f.batch.context);
    }
  }

  /** A message that the subscription does not take. */
  lemma PassedOverOk(r: Rules, s: State, entry: HistoryEntry)
    requires Ok(r, s) && !entry.Blank()
    ensures Ok(r, s.(log := s.log + [entry]))
  {
    FiresGrow(r, s, entry);
    WindowGrows(s.log, entry, s.picks, r.ctxLines, s.rt.pending, s.rt.context);
  }

  lemma MatchOk(r: Rules, s: State, entry: HistoryEntry, now: int, count: Option<int>)
    requires Ok(r, s) && !entry.Blank()
    ensures Ok(r, Match(r, s, entry, now, count))
  {
    PassedOverOk(r, s, entry);
    FiresGrow(r, s, entry);
    WindowGathers(r, s, entry);
  }

  lemma StepOk(r: Rules, s: State, step: Step)
    requires Ok(r, s) && (step.Say? ==> !step.entry.Blank())
    ensures Ok(r, Next(r, s, step))
  {
    match step
    case Say(entry, hit, now, count) =>
      if hit { MatchOk(r, s, entry, now, count); } else { PassedOverOk(r, s, entry); }
    case Flush(_) =>
  }

  lemma {:induction false} AlwaysOk(r: Rules, steps: seq<Step>)
    requires Spoken(steps)
    ensures Ok(r, After(r, steps))
  {
    if steps != [] {
      AlwaysOk(r, steps[..|steps| - 1]);
      StepOk(r, After(r, steps[..|steps| - 1]), steps[|steps| - 1]);
    }
  }

  /**
   Every fired payload carries its matches in channel order. Its context is exactly the last
   min(ctxLines, 32, p) of the p messages before its first match, oldest first, if and only if
   that match had messages before it, or is alone, or no context is asked for. Otherwise the
   context is what precedes the second match.
   */
  lemma FiredContext(r: Rules, steps: seq<Step>, i: nat)
    requires Spoken(steps) && i < |After(r, steps).fires|
    ensures var s := After(r, steps);
      var f := s.fires[i];
      && f.picks != [] && Ascending(f.picks, |s.log|)
      && f.batch.matches == PickedFrom(s.log, f.picks)
      && (f.batch.context == Preceding(s.log, f.picks[0], r.ctxLines)
          <==> f.picks[0] > 0 || |f.picks| == 1 || r.ctxLines <= 0)
      && (f.picks[0] == 0 && |f.picks| > 1 ==> f.batch.context == Preceding(s.log, f.picks[1], r.ctxLines))
  {
    AlwaysOk(r, steps);
    assert FireOk(After(r, steps).log, r.ctxLines, After(r, steps).fires[i]);
  }

  /** How many lines that is, and where in the log they are. */
  lemma PrecedingIs(log: seq<HistoryEntry>, p: nat, ctxLines: int)
    requires p <= |log|
    ensures var n := Max(0, Min(ctxLines, Min(DEPTH, p)));
      Preceding(log, p, ctxLines) == log[p - n..p]
  {
  }

  const FIVE_LINES := Rules(1, 1, 1, 1, "", "", "", 5, 1000, 0, 0)

  /** The second message joins the window of the first, and the flush drains both. */
  lemma Joins(s: State, entry: HistoryEntry)
    requires s.rt.timer != NoTimer && s.rt.lastFire == None
    ensures var s' := Next(FIVE_LINES, s, Say(entry, true, 1, None));
      && s'.log == s.log + [entry] && s'.picks == s.picks + [|s.log|] && s'.fires == s.fires
      && s'.rt.timer == s.rt.timer && s'.rt.pending == s.rt.pending + [entry]
  {
  }

  lemma Opens(entry: HistoryEntry)
    ensures var s' := Next(FIVE_LINES, State([], Fresh(), [], []), Say(entry, true, 0, None));
      && |s'.log| == 1 && s'.log[0] == entry && s'.picks == [0] && s'.fires == []
      && s'.rt.timer != NoTimer && s'.rt.lastFire == None
  {
  }

  lemma Flushes(s: State, now: int)
    requires s.rt.timer != NoTimer && s.rt.pending != []
    ensures var s' := Next(FIVE_LINES, s, Flush(now));
      s'.log == s.log && |s'.fires| == |s.fires| + 1 && s'.fires[|s.fires|] == Fire(BatchOf(s.rt), s.picks)
  {
  }

  lemma AfterSnoc(r: Rules, steps: seq<Step>, step: Step)
    ensures After(r, steps + [step]) == Next(r, After(r, steps), step)
  {
    assert (steps + [step])[..|steps|] == steps;
  }

  /** A run of two messages whose payload shows the first match once more as its own context. */
  lemma ContextCanRepeatMatch(a: HistoryEntry, b: HistoryEntry)
    requires !a.Blank() && !b.Blank()
    ensures var s := After(FIVE_LINES, [] + [Say(a, true, 0, None)] + [Say(b, true, 1, None)] + [Flush(1000 * MILLISECOND)]);
      |s.fires| == 1 && |s.fires[0].batch.matches| == 2 && s.fires[0].batch.matches[0] == a
      && s.fires[0].batch.context == [a]
  {
    var x, y, z := Say(a, true, 0, None), Say(b, true, 1, None), Flush(1000 * MILLISECOND);
    AfterSnoc(FIVE_LINES, [], x);
    AfterSnoc(FIVE_LINES, [] + [x], y);
    AfterSnoc(FIVE_LINES, [] + [x] + [y], z);
    Opens(a);
    var s1 := After(FIVE_LINES, [] + [x]);
    Joins(s1, b);
    var s2 := After(FIVE_LINES, [] + [x] + [y]);
    Flushes(s2, 1000 * MILLISECOND);
    FiredContext(FIVE_LINES, [] + [x] + [y] + [z], 0);
    assert s2.log[..1] == [a];
  }
}
