/**
 Republishing an inbound integration event into a channel (internal/server/publish.go).
 */
module Publish {
  import opened Base
  import opened Channels

  datatype InboundEvent = InboundEvent(
    source: string, severity: string, service: string, summary: string, occurredAt: int)

  function OrElse(s: string, otherwise: string): string {
    if s == "" then otherwise else s
  }

  /** FormatEventBody. */
  function Body(ev: InboundEvent): string {
    var prefix := "[" + OrElse(ev.severity, "info") + "] " + OrElse(ev.source, "inbound")
      + if ev.service == "" then "" else "/" + ev.service;
    if ev.summary == "" then prefix else prefix + ": " + ev.summary
  }

  function Entry(from: Id, ev: InboundEvent, now: int): HistoryEntry {
    HistoryEntry(from, ev.source, if ev.occurredAt == ZERO_TIME then now else ev.occurredAt, Body(ev))
  }

  /** Whatever fields the event leaves empty, its body is not, so the history ring keeps the entry. */
  lemma EntryKept(from: Id, ev: InboundEvent, now: int)
    ensures Body(ev) != "" && !Entry(from, ev, now).Blank()
  {
    assert Body(ev)[0] == '[';
  }

  /** What the body says, without the parts the event leaves empty. */
  lemma BodyText(ev: InboundEvent)
    ensures var head := "[" + (if ev.severity == "" then "info" else ev.severity) + "] " + (if ev.source == "" then "inbound" else ev.source);
      var where := if ev.service == "" then head else head + "/" + ev.service;
      Body(ev) == if ev.summary == "" then where else where + ": " + ev.summary
  {
    var head := "[" + OrElse(ev.severity, "info") + "] " + OrElse(ev.source, "inbound");
    assert head + "" == head;
  }

  /**
   PublishInbound; name is the channel row's, if the lookup finds it. The channel comes into memory
   when it was not, and what the webhooks get as context is the history before this event. fits tells
   whether the frame is small enough to encode.
   */
  method PublishInbound(reg: Registry, tenant: Id, chan: Id, name: Option<string>, from: Id, ev: InboundEvent,
                        now: int, fits: bool)
    returns (to: Option<set<Id>>, context: seq<HistoryEntry>)
    requires reg.Valid()
    modifies reg.shards, reg.All()`histPos, reg.All()`log, reg.Rings()
    ensures reg.Valid()
    ensures to.Some? <==> name.Some? && fits
    ensures to.Some? ==>
      var k := Key(tenant, chan);
      && to.value == reg.MembersOf(k).Keys && reg.Find(k).Some?
      && context == Recent(old(reg.LogOf(Key(tenant, chan))), DEPTH)
    ensures forall k :: reg.MembersOf(k) == old(reg.MembersOf(k))
    ensures var at := if ev.occurredAt == ZERO_TIME then now else ev.occurredAt;
      var head := "[" + (if ev.severity == "" then "info" else ev.severity) + "] " + (if ev.source == "" then "inbound" else ev.source);
      var where := if ev.service == "" then head else head + "/" + ev.service;
      var body := if ev.summary == "" then where else where + ": " + ev.summary;
      Entry(from, ev, now) == HistoryEntry(from, ev.source, at, body) && forall k ::
        reg.LogOf(k) == if to.Some? && k == Key(tenant, chan)
                        then old(reg.LogOf(k)) + [HistoryEntry(from, ev.source, at, body)] else old(reg.LogOf(k))
  {
    if name.None? || !fits {
      return None, [];
    }
    var ts := ev.occurredAt;
    if ts == ZERO_TIME {
      ts := now;
    }
    BodyText(ev);
    var everyone;
    everyone, context := Republish(reg, tenant, chan, name.value, HistoryEntry(from, ev.source, ts, Body(ev)));
    to := Some(everyone);
  }

  /** Broadcast and append, in a channel that comes into memory if it was not. */
  method Republish(reg: Registry, tenant: Id, chan: Id, name: string, e: HistoryEntry)
    returns (everyone: set<Id>, context: seq<HistoryEntry>)
    requires reg.Valid()
    modifies reg.shards, reg.All()`histPos, reg.All()`log, reg.Rings()
    ensures reg.Valid() && reg.Find(Key(tenant, chan)).Some?
    ensures everyone == reg.MembersOf(Key(tenant, chan)).Keys
    ensures context == Recent(old(reg.LogOf(Key(tenant, chan))), DEPTH)
    ensures forall k :: reg.MembersOf(k) == old(reg.MembersOf(k))
    ensures forall k ::
      reg.LogOf(k) == if k == Key(tenant, chan) then old(reg.LogOf(k)) + [e] else old(reg.LogOf(k))
  {
    var ch := reg.GetOrCreate(tenant, chan, name);
    assert fresh(ch) || (ch in old(reg.All()) && ch.hist in old(reg.Rings()));
    everyone, context := reg.Post(ch, e);
  }
}
