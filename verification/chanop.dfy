/**
 The channel-operator verbs (internal/server/chanop.go): who may pause a bot, and how the stored
 pause rows and the manager's pause set stay the same.
 */
module Chanop {
  import opened Base
  import opened Storage
  import opened Manager

  datatype Role = NoRole | Owner | Admin | Member | Banned | ChannelOp
  {
    predicate CanModerate() { Owner? || Admin? || ChannelOp? }
  }

  /** What the connection of an authenticated account caches. */
  datatype Caller = Caller(
    tenant: Id, account: Id, displayName: string, joined: map<string, Id>, roles: map<string, Role>)

  datatype Account = Account(tenant: Id, isBot: bool, displayName: string)

  datatype Denial =
    | InvalidRequest | NotInChannel | PermissionDenied | NotFound | NotABot | ChannelNotFound | Internal

  datatype Target = Allowed(bot: Id, channel: Id) | Denied(why: Denial)

  /** resolveChanopTarget, with its checks in order. */
  function Resolve(u: Caller, db: Db, accounts: map<Id, Account>, parseId: string -> Option<Id>,
                   channelName: string, bot: string): Target {
    if channelName == "" || bot == "" then Denied(InvalidRequest)
    else if channelName !in u.joined then Denied(NotInChannel)
    else if !(if channelName in u.roles then u.roles[channelName] else NoRole).CanModerate() then Denied(PermissionDenied)
    else
      match parseId(bot)
      case None => Denied(InvalidRequest)
      case Some(id) =>
        if id !in accounts || accounts[id].tenant != u.tenant then Denied(NotFound)
        else if !accounts[id].isBot then Denied(NotABot)
        else
          var ch := u.joined[channelName];
          if ch in db.channels && db.channels[ch] == u.tenant then Allowed(id, ch) else Denied(ChannelNotFound)
  }

  function Quoted(reason: string): string {
    if reason == "" then "" else ": \"" + reason + "\""
  }

  /** The text of the notice; operator is their display name. */
  function Notice(operator: string, verb: string, target: string, reason: string): string {
    "[op] " + operator + " " + verb + " bot @" + target + Quoted(reason)
  }

  /** The notice is never empty, so the channel's history ring keeps it. */
  lemma NoticeNotEmpty(operator: string, verb: string, target: string, reason: string)
    ensures Notice(operator, verb, target, reason) != ""
  {
    assert Notice(operator, verb, target, reason)[0] == '[';
  }

  method NoticeOf(operator: string, verb: string, target: string, reason: string) returns (notice: string)
    ensures notice != ""
    ensures notice == "[op] " + operator + " " + verb + " bot @" + target
                      + (if reason == "" then "" else ": \"" + reason + "\"")
    ensures notice == Notice(operator, verb, target, reason)
  {
    notice := "[op] " + operator + " " + verb + " bot @" + target;
    if reason != "" {
      notice := notice + (": \"" + reason + "\"");
    }
    assert notice[0] == '[';
  }

  /** Stored pause rows and the pause set, as one value. */
  datatype Pauses = Pauses(rows: set<(Id, Id, Id)>, live: set<(Id, Id)>)

  function Paused(s: Pauses, tenant: Id, channel: Id, bot: Id): Pauses {
    Pauses(s.rows + {(tenant, channel, bot)}, s.live + {(channel, bot)})
  }

  function Resumed(s: Pauses, tenant: Id, channel: Id, bot: Id): Pauses {
    Pauses(s.rows - {(tenant, channel, bot)}, s.live - {(channel, bot)})
  }

  datatype Action = PauseBotAction | ResumeBotAction

  /** A row of the moderation audit log. */
  datatype AuditRow = AuditRow(tenant: Id, channel: Id, actor: Id, target: Id, action: Action, reason: string)

  class Server<T> {
    var db: Db
    var auditLog: seq<AuditRow>
    const accounts: map<Id, Account>
    const webhooks: Manager<T>

    constructor (db: Db, accounts: map<Id, Account>, webhooks: Manager<T>)
      ensures this.db == db && this.accounts == accounts && this.webhooks == webhooks && auditLog == []
    {
      this.db, this.accounts, this.webhooks, auditLog := db, accounts, webhooks, [];
    }

    ghost function State(): Pauses
      reads this, webhooks
    {
      Pauses(db.pauses, webhooks.PauseSet())
    }

    /** recordChanopAudit: a row that cannot be written is missed. */
    method RecordAudit(row: AuditRow, audits: bool)
      modifies this`auditLog
      ensures auditLog == old(auditLog) + if audits then [row] else []
    {
      if audits {
        auditLog := auditLog + [row];
      }
    }

    /** resolveChanopTarget, and then the store's write, if it comes to that. */
    method CheckTarget(u: Caller, parseId: string -> Option<Id>, channel: string, bot: string, persists: bool)
      returns (r: Target)
      // the checks, in order: each denial when its check is the first to fail
      ensures var asked := channel != "" && bot != "";
        var joined := channel in u.joined;
        var moderates := channel in u.roles && u.roles[channel] in {Owner, Admin, ChannelOp};
        var id := parseId(bot);
        var known := id.Some? && id.value in accounts && accounts[id.value].tenant == u.tenant;
        var stands := joined && u.joined[channel] in db.channels && db.channels[u.joined[channel]] == u.tenant;
        && (r == Denied(InvalidRequest) <==> !asked || (joined && moderates && id.None?))
        && (r == Denied(NotInChannel) <==> asked && !joined)
        && (r == Denied(PermissionDenied) <==> asked && joined && !moderates)
        && (r == Denied(NotFound) <==> asked && joined && moderates && id.Some? && !known)
        && (r == Denied(NotABot) <==> asked && joined && moderates && known && !accounts[id.value].isBot)
        && (r == Denied(ChannelNotFound) <==>
              asked && joined && moderates && known && accounts[id.value].isBot && !stands)
        && (r == Denied(Internal) <==>
              asked && joined && moderates && known && accounts[id.value].isBot && stands && !persists)
        && (r.Allowed? <==> asked && joined && moderates && known && accounts[id.value].isBot && stands && persists)
        && (r.Allowed? ==> r.channel == u.joined[channel] && r.bot == id.value)
      ensures var t := Resolve(u, db, accounts, parseId, channel, bot);
        r == if t.Allowed? && !persists then Denied(Internal) else t
    {
      if channel == "" || bot == "" {
        return Denied(InvalidRequest);
      }
      if channel !in u.joined {
        return Denied(NotInChannel);
      }
      var role := if channel in u.roles then u.roles[channel] else NoRole;
      if !role.CanModerate() {
        return Denied(PermissionDenied);
      }
      var id := parseId(bot);
      if id.None? {
        return Denied(InvalidRequest);
      }
      if id.value !in accounts || accounts[id.value].tenant != u.tenant {
        return Denied(NotFound);
      }
      if !accounts[id.value].isBot {
        return Denied(NotABot);
      }
      var ch := u.joined[channel];
      if !(ch in db.channels && db.channels[ch] == u.tenant) {
        return Denied(ChannelNotFound);
      }
      if !persists {
        return Denied(Internal);
      }
      return Allowed(id.value, ch);
    }

    /**
     handleChanopPauseBot; persists tells whether the pause row is written, audits whether the audit row
     is. The notice is for the channel.
     */
    method PauseBot(u: Caller, parseId: string -> Option<Id>, channel: string, bot: string, reason: string,
                     persists: bool, audits: bool)
      returns (r: Target, notice: string)
      requires webhooks.Valid()
      modifies this, webhooks`pauses
      ensures webhooks.Valid()
      // the checks, in order: each denial when its check is the first to fail
      ensures var asked := channel != "" && bot != "";
        var joined := channel in u.joined;
        var moderates := channel in u.roles && u.roles[channel] in {Owner, Admin, ChannelOp};
        var id := parseId(bot);
        var known := id.Some? && id.value in accounts && accounts[id.value].tenant == u.tenant;
        var stands := joined && u.joined[channel] in old(db).channels && old(db).channels[u.joined[channel]] == u.tenant;
        && (r == Denied(InvalidRequest) <==> !asked || (joined && moderates && id.None?))
        && (r == Denied(NotInChannel) <==> asked && !joined)
        && (r == Denied(PermissionDenied) <==> asked && joined && !moderates)
        && (r == Denied(NotFound) <==> asked && joined && moderates && id.Some? && !known)
        && (r == Denied(NotABot) <==> asked && joined && moderates && known && !accounts[id.value].isBot)
        && (r == Denied(ChannelNotFound) <==>
              asked && joined && moderates && known && accounts[id.value].isBot && !stands)
        && (r == Denied(Internal) <==>
              asked && joined && moderates && known && accounts[id.value].isBot && stands && !persists)
        && (r.Allowed? <==> asked && joined && moderates && known && accounts[id.value].isBot && stands && persists)
        && (r.Allowed? ==> r.channel == u.joined[channel] && r.bot == id.value)
      // row, pause set and notice
      ensures r.Denied? ==> db == old(db) && webhooks.PauseSet() == old(webhooks.PauseSet())
      ensures r.Allowed? ==>
        && db.pauses == old(db).pauses + {(u.tenant, r.channel, r.bot)}
        && webhooks.PauseSet() == old(webhooks.PauseSet()) + {(r.channel, r.bot)}
        && r.bot in accounts
        && notice == "[op] " + u.displayName + " " + "paused" + " bot @" + accounts[r.bot].displayName
                     + (if reason == "" then "" else ": \"" + reason + "\"")
      // and as the transition
      ensures var t := Resolve(u, old(db), accounts, parseId, channel, bot);
        r == if t.Allowed? && !persists then Denied(Internal) else t
      ensures State() == if r.Allowed? then Effect(old(db), [u.tenant], old(State()), Pause(u.tenant, r.channel, r.bot)) else old(State())
      ensures db == old(db).(pauses := db.pauses)
      ensures r.Allowed? ==> notice != ""
      ensures auditLog == old(auditLog) +
        if r.Allowed? && audits then [AuditRow(u.tenant, r.channel, u.account, r.bot, PauseBotAction, reason)] else []
    {
      notice := "";
      r := CheckTarget(u, parseId, channel, bot, persists);
      if r.Denied? {
        return;
      }
      db := db.(pauses := db.pauses + {(u.tenant, r.channel, r.bot)});
      webhooks.SetBotPaused(r.channel, r.bot, true);
      RecordAudit(AuditRow(u.tenant, r.channel, u.account, r.bot, PauseBotAction, reason), audits);
      notice := NoticeOf(u.displayName, "paused", accounts[r.bot].displayName, reason);
    }

    /** handleChanopResumeBot; a pause that is not there is not an error. */
    method ResumeBot(u: Caller, parseId: string -> Option<Id>, channel: string, bot: string, reason: string,
                     persists: bool, audits: bool)
      returns (r: Target, notice: string)
      requires webhooks.Valid()
      modifies this, webhooks`pauses
      ensures webhooks.Valid()
      // the checks, in order: each denial when its check is the first to fail
      ensures var asked := channel != "" && bot != "";
        var joined := channel in u.joined;
        var moderates := channel in u.roles && u.roles[channel] in {Owner, Admin, ChannelOp};
        var id := parseId(bot);
        var known := id.Some? && id.value in accounts && accounts[id.value].tenant == u.tenant;
        var stands := joined && u.joined[channel] in old(db).channels && old(db).channels[u.joined[channel]] == u.tenant;
        && (r == Denied(InvalidRequest) <==> !asked || (joined && moderates && id.None?))
        && (r == Denied(NotInChannel) <==> asked && !joined)
        && (r == Denied(PermissionDenied) <==> asked && joined && !moderates)
        && (r == Denied(NotFound) <==> asked && joined && moderates && id.Some? && !known)
        && (r == Denied(NotABot) <==> asked && joined && moderates && known && !accounts[id.value].isBot)
        && (r == Denied(ChannelNotFound) <==>
              asked && joined && moderates && known && accounts[id.value].isBot && !stands)
        && (r == Denied(Internal) <==>
              asked && joined && moderates && known && accounts[id.value].isBot && stands && !persists)
        && (r.Allowed? <==> asked && joined && moderates && known && accounts[id.value].isBot && stands && persists)
        && (r.Allowed? ==> r.channel == u.joined[channel] && r.bot == id.value)
      // row, pause set and notice
      ensures r.Denied? ==> db == old(db) && webhooks.PauseSet() == old(webhooks.PauseSet())
      ensures r.Allowed? ==>
        && db.pauses == old(db).pauses - {(u.tenant, r.channel, r.bot)}
        && webhooks.PauseSet() == old(webhooks.PauseSet()) - {(r.channel, r.bot)}
        && r.bot in accounts
        && notice == "[op] " + u.displayName + " " + "resumed" + " bot @" + accounts[r.bot].displayName
                     + (if reason == "" then "" else ": \"" + reason + "\"")
      // and as the transition
      ensures var t := Resolve(u, old(db), accounts, parseId, channel, bot);
        r == if t.Allowed? && !persists then Denied(Internal) else t
      ensures State() == if r.Allowed? then Effect(old(db), [u.tenant], old(State()), Resume(u.tenant, r.channel, r.bot)) else old(State())
      ensures db == old(db).(pauses := db.pauses)
      ensures r.Allowed? ==> notice != ""
      ensures auditLog == old(auditLog) +
        if r.Allowed? && audits then [AuditRow(u.tenant, r.channel, u.account, r.bot, ResumeBotAction, reason)] else []
    {
      notice := "";
      r := CheckTarget(u, parseId, channel, bot, persists);
      if r.Denied? {
        return;
      }
      db := db.(pauses := db.pauses - {(u.tenant, r.channel, r.bot)});
      webhooks.SetBotPaused(r.channel, r.bot, false);
      RecordAudit(AuditRow(u.tenant, r.channel, u.account, r.bot, ResumeBotAction, reason), audits);
      notice := NoticeOf(u.displayName, "resumed", accounts[r.bot].displayName, reason);
    }
  }

  datatype Op = Pause(tenant: Id, channel: Id, bot: Id) | Resume(tenant: Id, channel: Id, bot: Id) | Reload

  ghost function Effect(db: Db, tenants: seq<Id>, s: Pauses, op: Op): Pauses {
    match op
    case Pause(t, ch, bot) => Paused(s, t, ch, bot)
    case Resume(t, ch, bot) => Resumed(s, t, ch, bot)
    case Reload => Pauses(s.rows, StoredPauses(db.(pauses := s.rows), tenants))
  }

  ghost function After(db: Db, tenants: seq<Id>, s: Pauses, ops: seq<Op>): Pauses {
    if ops == [] then s else Effect(db, tenants, After(db, tenants, s, ops[..|ops| - 1]), ops[|ops| - 1])
  }

  /** The verb got past resolveChanopTarget, which looks the channel up in the caller's tenant. */
  ghost predicate Resolved(db: Db, tenants: seq<Id>, op: Op) {
    op.Reload? || (op.tenant in tenants && op.channel in db.channels && db.channels[op.channel] == op.tenant)
  }

  /** Each row's channel belongs to the row's tenant, and the pause set is what the rows say. */
  ghost predicate InStep(db: Db, tenants: seq<Id>, s: Pauses) {
    && (forall q :: q in s.rows ==> q.0 in tenants && q.1 in db.channels && db.channels[q.1] == q.0)
    && (forall ch: Id, bot: Id :: (ch, bot) in s.live <==> ch in db.channels && (db.channels[ch], ch, bot) in s.rows)
  }

  lemma EffectInStep(db: Db, tenants: seq<Id>, s: Pauses, op: Op)
    requires InStep(db, tenants, s) && Resolved(db, tenants, op)
    ensures InStep(db, tenants, Effect(db, tenants, s, op))
  {
    if op.Reload? {
      var live := StoredPauses(db.(pauses := s.rows), tenants);
      forall ch: Id, bot: Id
        ensures (ch, bot) in live <==> ch in db.channels && (db.channels[ch], ch, bot) in s.rows
      {
        if (ch, bot) in live {
          var q :| q in s.rows && q.0 in tenants && (q.1, q.2) == (ch, bot);
        }
        if ch in db.channels && (db.channels[ch], ch, bot) in s.rows {
          var q := (db.channels[ch], ch, bot);
          assert q in s.rows && q.0 in tenants;
        }
      }
    }
  }

  /**
   After any sequence of pause and resume verbs and reloads, the pause set consulted by Notify is
   exactly what the stored rows say, although it forgets the tenant of each row.
   */
  lemma {:induction false} PauseSetEqualsRows(db: Db, tenants: seq<Id>, s: Pauses, ops: seq<Op>)
    requires InStep(db, tenants, s)
    requires forall k :: 0 <= k < |ops| ==> Resolved(db, tenants, ops[k])
    ensures InStep(db, tenants, After(db, tenants, s, ops))
    ensures var z := After(db, tenants, s, ops); z.live == StoredPauses(db.(pauses := z.rows), tenants)
  {
    if ops != [] {
      PauseSetEqualsRows(db, tenants, s, ops[..|ops| - 1]);
      EffectInStep(db, tenants, After(db, tenants, s, ops[..|ops| - 1]), ops[|ops| - 1]);
    }
    var z := After(db, tenants, s, ops);
    EffectInStep(db, tenants, z, Reload);
    var stored := StoredPauses(db.(pauses := z.rows), tenants);
    forall q: (Id, Id) ensures q in z.live <==> q in stored {
      assert q == (q.0, q.1) && InStep(db, tenants, Pauses(z.rows, stored));
    }
  }

  // Verbs that overlap: the row is written and the set updated without a lock over both

  /** One of the two writes of a verb: to the stored rows, or to the pause set. */
  datatype Half =
    | Row(tenant: Id, channel: Id, bot: Id, on: bool)
    | Live(channel: Id, bot: Id, on: bool)

  function Apply(s: Pauses, h: Half): Pauses {
    match h
    case Row(t, ch, bot, on) => s.(rows := if on then s.rows + {(t, ch, bot)} else s.rows - {(t, ch, bot)})
    case Live(ch, bot, on) => s.(live := if on then s.live + {(ch, bot)} else s.live - {(ch, bot)})
  }

  function AfterHalves(s: Pauses, halves: seq<Half>): Pauses {
    if halves == [] then s else Apply(AfterHalves(s, halves[..|halves| - 1]), halves[|halves| - 1])
  }

  /** What the last write to the rows, or to the set, says of bot on channel; initially if there is none. */
  function LastSays(halves: seq<Half>, rows: bool, channel: Id, bot: Id, initially: bool): bool {
    if halves == [] then initially
    else
      var h := halves[|halves| - 1];
      if h.Row? == rows && h.channel == channel && h.bot == bot then h.on
      else LastSays(halves[..|halves| - 1], rows, channel, bot, initially)
  }

  /** Every row is written for the tenant its channel belongs to. */
  ghost predicate RowsResolved(db: Db, tenants: seq<Id>, halves: seq<Half>) {
    forall k :: 0 <= k < |halves| && halves[k].Row? ==>
      halves[k].tenant in tenants && halves[k].channel in db.channels && db.channels[halves[k].channel] == halves[k].tenant
  }

  /** The sets only ever name channels that exist. */
  ghost predicate LiveResolved(db: Db, halves: seq<Half>) {
    forall k :: 0 <= k < |halves| && halves[k].Live? ==> halves[k].channel in db.channels
  }

  ghost predicate RowsOwned(db: Db, tenants: seq<Id>, s: Pauses) {
    forall q :: q in s.rows ==> q.0 in tenants && q.1 in db.channels && db.channels[q.1] == q.0
  }

  lemma {:induction false} HalvesSay(db: Db, tenants: seq<Id>, s: Pauses, halves: seq<Half>, ch: Id, bot: Id)
    requires RowsResolved(db, tenants, halves) && RowsOwned(db, tenants, s) && ch in db.channels
    ensures var z := AfterHalves(s, halves);
      && RowsOwned(db, tenants, z)
      && ((db.channels[ch], ch, bot) in z.rows <==> LastSays(halves, true, ch, bot, (db.channels[ch], ch, bot) in s.rows))
      && ((ch, bot) in z.live <==> LastSays(halves, false, ch, bot, (ch, bot) in s.live))
  {
    if halves != [] { HalvesSay(db, tenants, s, halves[..|halves| - 1], ch, bot); }
  }

  lemma {:induction false} NoStrangers(db: Db, s: Pauses, halves: seq<Half>, ch: Id, bot: Id)
    requires LiveResolved(db, halves) && ch !in db.channels
    ensures (ch, bot) in AfterHalves(s, halves).live ==> (ch, bot) in s.live
  {
    if halves != [] { NoStrangers(db, s, halves[..|halves| - 1], ch, bot); }
  }

  /**
   However the writes of overlapping verbs interleave, the pause set ends up saying what the rows say if
   and only if, for every bot and channel, the last write to the rows and the last one to the set agree.
   */
  lemma InterleavedInStepIff(db: Db, tenants: seq<Id>, s: Pauses, halves: seq<Half>)
    requires InStep(db, tenants, s) && RowsResolved(db, tenants, halves) && LiveResolved(db, halves)
    ensures InStep(db, tenants, AfterHalves(s, halves)) <==>
      forall ch: Id, bot: Id :: ch in db.channels ==>
        LastSays(halves, true, ch, bot, (ch, bot) in s.live) == LastSays(halves, false, ch, bot, (ch, bot) in s.live)
  {
    var z := AfterHalves(s, halves);
    assert RowsOwned(db, tenants, s);
    forall ch: Id, bot: Id ensures ch !in db.channels ==> (ch, bot) !in z.live {
      if ch !in db.channels { NoStrangers(db, s, halves, ch, bot); }
    }
    forall ch: Id, bot: Id | ch in db.channels
      ensures (db.channels[ch], ch, bot) in z.rows <==> LastSays(halves, true, ch, bot, (ch, bot) in s.live)
      ensures (ch, bot) in z.live <==> LastSays(halves, false, ch, bot, (ch, bot) in s.live)
    {
      HalvesSay(db, tenants, s, halves, ch, bot);
      assert (ch, bot) in s.live <==> (db.channels[ch], ch, bot) in s.rows;
    }
    KeepsOwned(db, tenants, s, halves);
    if forall ch: Id, bot: Id :: ch in db.channels ==>
        LastSays(halves, true, ch, bot, (ch, bot) in s.live) == LastSays(halves, false, ch, bot, (ch, bot) in s.live)
    {
      forall ch: Id, bot: Id
        ensures (ch, bot) in z.live <==> ch in db.channels && (db.channels[ch], ch, bot) in z.rows {}
    } else {
      var ch: Id, bot: Id :| ch in db.channels &&
        LastSays(halves, true, ch, bot, (ch, bot) in s.live) != LastSays(halves, false, ch, bot, (ch, bot) in s.live);
      assert !((ch, bot) in z.live <==> (db.channels[ch], ch, bot) in z.rows);
    }
  }

  lemma {:induction false} KeepsOwned(db: Db, tenants: seq<Id>, s: Pauses, halves: seq<Half>)
    requires RowsResolved(db, tenants, halves) && RowsOwned(db, tenants, s)
    ensures RowsOwned(db, tenants, AfterHalves(s, halves))
  {
    if halves != [] { KeepsOwned(db, tenants, s, halves[..|halves| - 1]); }
  }

  /** A pause and a resume whose writes cross: the row is gone, and the bot stays paused. */
  lemma CrossingVerbs(db: Db, tenant: Id, ch: Id, bot: Id)
    requires ch in db.channels && db.channels[ch] == tenant
    ensures var z := AfterHalves(Pauses({}, {}), [] + [Row(tenant, ch, bot, true)] + [Row(tenant, ch, bot, false)]
                                                  + [Live(ch, bot, false)] + [Live(ch, bot, true)]);
      (ch, bot) in z.live && (tenant, ch, bot) !in z.rows
  {
    var a, b, c, d := Row(tenant, ch, bot, true), Row(tenant, ch, bot, false), Live(ch, bot, false), Live(ch, bot, true);
    HalvesSnoc(Pauses({}, {}), [], a);
    HalvesSnoc(Pauses({}, {}), [] + [a], b);
    HalvesSnoc(Pauses({}, {}), [] + [a] + [b], c);
    HalvesSnoc(Pauses({}, {}), [] + [a] + [b] + [c], d);
  }

  lemma HalvesSnoc(s: Pauses, halves: seq<Half>, h: Half)
    ensures AfterHalves(s, halves + [h]) == Apply(AfterHalves(s, halves), h)
  {
    assert (halves + [h])[..|halves|] == halves;
  }
}
