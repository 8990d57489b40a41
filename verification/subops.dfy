/**
 Subscription CRUD shared by REST and the realtime protocol (internal/subops/subops.go), and the
 auto-disable path (internal/webhook/worker.go), as writers of both the store and the cache.
 */
module Subops {
  import opened Base
  import opened Subscription
  import opened Storage
  import opened Manager

  datatype Error = BadRequest | NotFound | NotOwner | Internal

  datatype Result<+T> = Ok(value: T) | Err(error: Error)

  datatype Bot = Bot(id: Id, tenant: Id, isBot: bool)

  datatype CreateInput = CreateInput(
    channelName: string, channelId: string, url: string, match_: string, events: seq<string>,
    ctxLines: int, debounceMs: int, cooldownMs: int, budget: string)

  /** The patch; None leaves a field as it is. */
  datatype UpdateInput = UpdateInput(
    url: Option<string>, match_: Option<string>, events: Option<seq<string>>, ctxLines: Option<int>,
    debounceMs: Option<int>, cooldownMs: Option<int>, budget: Option<string>, disabled: Option<bool>)

  /** Functions the operations call and this model does not look into. */
  datatype Env = Env(parsers: Parsers, urlOk: string -> bool, parseId: string -> Option<Id>)

  function ResolveChannel(env: Env, db: Db, tenant: Id, name: string, id: string): Result<Id> {
    if id != "" then
      match env.parseId(id)
      case None => Err(BadRequest)
      case Some(ch) => if ch in db.channels && db.channels[ch] == tenant then Ok(ch) else Err(NotFound)
    else if (tenant, name) in db.names then Ok(db.names[(tenant, name)])
    else Err(NotFound)
  }

  /** The row Create is to insert, or the first check that fails. */
  function NewRow(env: Env, db: Db, bot: Bot, in_: CreateInput, id: Id, secret: string): Result<SubRow> {
    if !bot.isBot || !env.urlOk(in_.url) || in_.match_ == "" || (in_.channelName == "") == (in_.channelId == "") then
      Err(BadRequest)
    else
      match ResolveChannel(env, db, bot.tenant, in_.channelName, in_.channelId)
      case Err(e) => Err(e)
      case Ok(ch) =>
        if !env.parsers.Matches(in_.match_) then Err(BadRequest)
        else Ok(SubRow(id, bot.tenant, bot.id, ch, in_.url, secret, in_.match_,
                       if in_.events == [] then ["message"] else in_.events,
                       in_.ctxLines, in_.debounceMs, in_.cooldownMs,
                       if in_.budget == "" then "{}" else in_.budget, 0))
  }

  /** Get: the caller's own row, by tenant and owner. */
  function OwnRow(db: Db, bot: Bot, id: Option<Id>): Result<SubRow> {
    if id.None? then Err(BadRequest)
    else if id.value !in db.subs || db.subs[id.value].tenant != bot.tenant then Err(NotFound)
    else if db.subs[id.value].account != bot.id then Err(NotOwner)
    else Ok(db.subs[id.value])
  }

  /** The outcome of a write that was asked for, given whether the store carried it out. */
  function Persisted<T>(r: Result<T>, stores: bool): Result<T> {
    if r.Ok? && !stores then Err(Internal) else r
  }

  function Or<T>(o: Option<T>, default: T): T {
    if o.Some? then o.value else default
  }

  function Patched(row: SubRow, in_: UpdateInput, now: int): SubRow {
    row.(url := Or(in_.url, row.url), matchJson := Or(in_.match_, row.matchJson),
         events := Or(in_.events, row.events), ctxLines := Or(in_.ctxLines, row.ctxLines),
         debounceMs := Or(in_.debounceMs, row.debounceMs), cooldownMs := Or(in_.cooldownMs, row.cooldownMs),
         budgetJson := Or(in_.budget, row.budgetJson),
         disabledAt := if in_.disabled == Some(true) then (if row.disabledAt == 0 then now else row.disabledAt)
                       else if in_.disabled == Some(false) then 0 else row.disabledAt)
  }

  function UpdatedRow(env: Env, db: Db, bot: Bot, id: Option<Id>, in_: UpdateInput, now: int): Result<SubRow> {
    match OwnRow(db, bot, id)
    case Err(e) => Err(e)
    case Ok(row) =>
      if in_.url.Some? && !env.urlOk(in_.url.value) then Err(BadRequest)
      else if in_.match_.Some? && !env.parsers.Matches(in_.match_.value) then Err(BadRequest)
      else Ok(Patched(row, in_, now))
  }

  /** The store writes an absent budget as an empty object. */
  function AsStored(row: SubRow): SubRow {
    if row.budgetJson == "" then row.(budgetJson := "{}") else row
  }

  // The store and the cache as one value, and what the writers do to it

  datatype System = System(db: Db, cached: map<Id, Rules>)

  /** mgr.AddOrUpdate, whose error the callers ignore. */
  function CachePut(p: Parsers, cached: map<Id, Rules>, row: SubRow): map<Id, Rules> {
    if Compile(p, row).Some? then cached[row.id := Compile(p, row).value] else cached
  }

  function Inserted(p: Parsers, y: System, row: SubRow): System {
    System(y.db.(subs := y.db.subs[row.id := AsStored(row)]), CachePut(p, y.cached, row))
  }

  function Rewritten(p: Parsers, y: System, row: SubRow): System {
    System(y.db.(subs := y.db.subs[row.id := AsStored(row)]),
           if row.disabledAt == 0 then CachePut(p, y.cached, row) else y.cached - {row.id})
  }

  function Erased(y: System, id: Id): System {
    System(y.db.(subs := y.db.subs - {id}), y.cached - {id})
  }

  /** autoDisable: the stored row is marked unless it is gone, and the cache entry goes in any case. */
  function AutoDisabled(y: System, tenant: Id, id: Id, now: int): System {
    if id in y.db.subs && y.db.subs[id].tenant == tenant && y.db.subs[id].disabledAt == 0 then
      System(y.db.(subs := y.db.subs[id := AsStored(y.db.subs[id].(disabledAt := now))]), y.cached - {id})
    else
      System(y.db, y.cached - {id})
  }

  class Store {
    var db: Db

    constructor (db: Db)
      ensures this.db == db
    {
      this.db := db;
    }

    /** UPDATE ... WHERE tenant_id = ? AND id = ?; false is ErrNotFound. */
    method UpdateSubscription(tenant: Id, row: SubRow) returns (found: bool)
      modifies this
      ensures found <==> row.id in old(db).subs && old(db).subs[row.id].tenant == tenant
      ensures db == if found then old(db).(subs := old(db).subs[row.id := AsStored(row)]) else old(db)
    {
      found := row.id in db.subs && db.subs[row.id].tenant == tenant;
      if found {
        db := db.(subs := db.subs[row.id := AsStored(row)]);
      }
    }
  }

  /** Everything one of these operations may touch. */
  ghost function State<T>(st: Store, mgr: Manager<T>): System
    reads st, mgr
  {
    System(st.db, mgr.Cached())
  }

  /** stores tells whether the store's write succeeds; a failed one changes neither store nor cache. */
  method Create<T>(env: Env, st: Store, mgr: Manager<T>, bot: Bot, in_: CreateInput, id: Id, secret: string, stores: bool)
    returns (r: Result<SubRow>)
    requires mgr.Valid() && id !in st.db.subs && secret != ""
    modifies st, mgr`subs, mgr`byChannel, mgr.Retires(id)
    ensures mgr.Valid()
    // the checks
    ensures var db := old(st.db);
      var asked := bot.isBot && env.urlOk(in_.url) && in_.match_ != "" && ((in_.channelName == "") != (in_.channelId == ""));
      var parses := in_.channelId != "" ==> env.parseId(in_.channelId).Some?;
      var known := if in_.channelId == "" then (bot.tenant, in_.channelName) in db.names
                   else parses && env.parseId(in_.channelId).value in db.channels
                        && db.channels[env.parseId(in_.channelId).value] == bot.tenant;
      var matches := in_.match_ == "" || env.parsers.matchOk(in_.match_);
      && (r.Ok? <==> asked && parses && known && matches && stores)
      && (r == Err(NotFound) <==> asked && parses && !known)
      && (r == Err(BadRequest) <==> !asked || !parses || (known && !matches))
      && (r == Err(Internal) <==> asked && parses && known && matches && !stores)
    // the row, field by field, and where it goes
    ensures r.Ok? ==>
      && var row := r.value;
         && row.id == id && row.tenant == bot.tenant && row.account == bot.id && row.url == in_.url && row.secret == secret
         && row.channel == (if in_.channelId == "" then old(st.db).names[(bot.tenant, in_.channelName)]
                            else env.parseId(in_.channelId).value)
         && row.matchJson == in_.match_ && row.events == (if in_.events == [] then ["message"] else in_.events)
         && row.ctxLines == in_.ctxLines && row.debounceMs == in_.debounceMs && row.cooldownMs == in_.cooldownMs
         && row.budgetJson == (if in_.budget == "" then "{}" else in_.budget) && row.disabledAt == 0
         && st.db == old(st.db).(subs := old(st.db).subs[id := row])
    ensures r.Err? ==> st.db == old(st.db) && mgr.subs == old(mgr.subs)
    // and as the system's transition
    ensures r == Persisted(NewRow(env, old(st.db), bot, in_, id, secret), stores)
    ensures State(st, mgr) == if r.Ok? then Inserted(env.parsers, old(State(st, mgr)), r.value) else old(State(st, mgr))
  {
    if !bot.isBot {
      return Err(BadRequest);
    }
    if !env.urlOk(in_.url) {
      return Err(BadRequest);
    }
    if |in_.match_| == 0 {
      return Err(BadRequest);
    }
    if (in_.channelName == "") == (in_.channelId == "") {
      return Err(BadRequest);
    }
    var channel := ResolveChannel(env, st.db, bot.tenant, in_.channelName, in_.channelId);
    if channel.Err? {
      return Err(channel.error);
    }
    if !env.parsers.Matches(in_.match_) {
      return Err(BadRequest);
    }
    var events := in_.events;
    if |events| == 0 {
      events := ["message"];
    }
    var budget := in_.budget;
    if |budget| == 0 {
      budget := "{}";
    }
    var sub := SubRow(id, bot.tenant, bot.id, channel.value, in_.url, secret, in_.match_, events,
                      in_.ctxLines, in_.debounceMs, in_.cooldownMs, budget, 0);
    if !stores {
      return Err(Internal);
    }
    st.db := st.db.(subs := st.db.subs[id := AsStored(sub)]);
    var _ := mgr.AddOrUpdate(env.parsers, sub);
    r := Ok(sub);
  }

  /** The patch is applied field by field. */
  method Patch(env: Env, row: SubRow, in_: UpdateInput, now: int) returns (r: Result<SubRow>)
    ensures r == if (in_.url.Some? && !env.urlOk(in_.url.value))
                    || (in_.match_.Some? && !env.parsers.Matches(in_.match_.value))
                 then Err(BadRequest) else Ok(Patched(row, in_, now))
  {
    var sub := row;
    if in_.url.Some? {
      if !env.urlOk(in_.url.value) {
        return Err(BadRequest);
      }
      sub := sub.(url := in_.url.value);
    }
    if in_.match_.Some? {
      if !env.parsers.Matches(in_.match_.value) {
        return Err(BadRequest);
      }
      sub := sub.(matchJson := in_.match_.value);
    }
    if in_.events.Some? {
      sub := sub.(events := in_.events.value);
    }
    if in_.ctxLines.Some? {
      sub := sub.(ctxLines := in_.ctxLines.value);
    }
    if in_.debounceMs.Some? {
      sub := sub.(debounceMs := in_.debounceMs.value);
    }
    if in_.cooldownMs.Some? {
      sub := sub.(cooldownMs := in_.cooldownMs.value);
    }
    if in_.budget.Some? {
      sub := sub.(budgetJson := in_.budget.value);
    }
    if in_.disabled.Some? {
      if in_.disabled.value {
        if sub.disabledAt == 0 {
          sub := sub.(disabledAt := now);
        }
      } else {
        sub := sub.(disabledAt := 0);
      }
    }
    r := Ok(sub);
  }

  /** The patched row is written to the store and to the cache. */
  method Update<T>(env: Env, st: Store, mgr: Manager<T>, bot: Bot, id: Option<Id>, in_: UpdateInput, now: int,
                   stores: bool)
    returns (r: Result<SubRow>)
    requires mgr.Valid() && now > 0
    requires forall i :: i in st.db.subs ==> st.db.subs[i].id == i
    modifies st, mgr`subs, mgr`byChannel, if id.Some? then mgr.Retires(id.value) else {}
    ensures mgr.Valid()
    // whose row, and which patches
    ensures var db := old(st.db);
      var found := id.Some? && id.value in db.subs && db.subs[id.value].tenant == bot.tenant;
      var owned := found && db.subs[id.value].account == bot.id;
      var good := (in_.url.Some? ==> env.urlOk(in_.url.value))
        && (in_.match_.Some? ==> in_.match_.value == "" || env.parsers.matchOk(in_.match_.value));
      && (r.Ok? <==> owned && good && stores)
      && (r == Err(NotFound) <==> id.Some? && !found)
      && (r == Err(NotOwner) <==> found && !owned)
      && (r == Err(BadRequest) <==> id.None? || (owned && !good))
      && (r == Err(Internal) <==> owned && good && !stores)
    // the row, field by field, and where it goes
    ensures r.Ok? ==>
      && var was, row := old(st.db).subs[id.value], r.value;
         && row.id == was.id && row.tenant == was.tenant && row.account == was.account && row.channel == was.channel
         && row.secret == was.secret
         && row.url == (if in_.url.Some? then in_.url.value else was.url)
         && row.matchJson == (if in_.match_.Some? then in_.match_.value else was.matchJson)
         && row.events == (if in_.events.Some? then in_.events.value else was.events)
         && row.ctxLines == (if in_.ctxLines.Some? then in_.ctxLines.value else was.ctxLines)
         && row.debounceMs == (if in_.debounceMs.Some? then in_.debounceMs.value else was.debounceMs)
         && row.cooldownMs == (if in_.cooldownMs.Some? then in_.cooldownMs.value else was.cooldownMs)
         && row.budgetJson == (if in_.budget.Some? then in_.budget.value else was.budgetJson)
         && row.disabledAt == (if in_.disabled.None? then was.disabledAt else if !in_.disabled.value then 0
                               else if was.disabledAt == 0 then now else was.disabledAt)
         && st.db == old(st.db).(subs := old(st.db).subs[id.value :=
              row.(budgetJson := if row.budgetJson == "" then "{}" else row.budgetJson)])
    ensures r.Err? ==> st.db == old(st.db) && mgr.subs == old(mgr.subs)
    ensures r.Ok? && r.value.disabledAt != 0 ==> mgr.subs == old(mgr.subs) - {id.value}
    // and as the system's transition
    ensures r == Persisted(UpdatedRow(env, old(st.db), bot, id, in_, now), stores)
    ensures State(st, mgr) == if r.Ok? then Rewritten(env.parsers, old(State(st, mgr)), r.value) else old(State(st, mgr))
  {
    var got := OwnRow(st.db, bot, id);
    if got.Err? {
      return Err(got.error);
    }
    r := Patch(env, got.value, in_, now);
    if r.Err? {
      return;
    }
    var sub := r.value;
    if !stores {
      return Err(Internal);
    }
    Save(env, st, mgr, bot.tenant, sub);
  }

  /** The store's row first, then the cache. */
  method Save<T>(env: Env, st: Store, mgr: Manager<T>, tenant: Id, sub: SubRow)
    requires mgr.Valid() && sub.id in st.db.subs && st.db.subs[sub.id].tenant == tenant
    modifies st, mgr`subs, mgr`byChannel, mgr.Retires(sub.id)
    ensures mgr.Valid()
    ensures st.db == old(st.db).(subs := old(st.db).subs[sub.id :=
              sub.(budgetJson := if sub.budgetJson == "" then "{}" else sub.budgetJson)])
    ensures sub.disabledAt != 0 ==> mgr.subs == old(mgr.subs) - {sub.id}
    ensures State(st, mgr) == Rewritten(env.parsers, old(State(st, mgr)), sub)
  {
    var found := st.UpdateSubscription(tenant, sub);
    if sub.disabledAt == 0 {
      var _ := mgr.AddOrUpdate(env.parsers, sub);
    } else {
      mgr.Remove(sub.id);
    }
  }

  method Delete<T>(st: Store, mgr: Manager<T>, bot: Bot, id: Option<Id>, stores: bool) returns (r: Result<()>)
    requires mgr.Valid()
    requires forall i :: i in st.db.subs ==> st.db.subs[i].id == i
    modifies st, mgr`subs, mgr`byChannel, if id.Some? then mgr.Retires(id.value) else {}
    ensures mgr.Valid()
    ensures var db := old(st.db);
      var found := id.Some? && id.value in db.subs && db.subs[id.value].tenant == bot.tenant;
      var owned := found && db.subs[id.value].account == bot.id;
      && (r.Ok? <==> owned && stores)
      && (r == Err(NotFound) <==> id.Some? && !found)
      && (r == Err(NotOwner) <==> found && !owned)
      && (r == Err(BadRequest) <==> id.None?)
    ensures r.Ok? ==> st.db == old(st.db).(subs := old(st.db).subs - {id.value}) && mgr.subs == old(mgr.subs) - {id.value}
    ensures r.Err? ==> st.db == old(st.db) && mgr.subs == old(mgr.subs)
    ensures r == match Persisted(OwnRow(old(st.db), bot, id), stores) case Ok(_) => Ok(()) case Err(e) => Err(e)
    ensures State(st, mgr) == if r.Ok? then Erased(old(State(st, mgr)), id.value) else old(State(st, mgr))
  {
    var got := OwnRow(st.db, bot, id);
    if got.Err? {
      return Err(got.error);
    }
    if !stores {
      return Err(Internal);
    }
    st.db := st.db.(subs := st.db.subs - {got.value.id});
    mgr.Remove(got.value.id);
    r := Ok(());
  }

  method AutoDisable<T>(st: Store, mgr: Manager<T>, tenant: Id, id: Id, now: int, stores: bool)
    requires mgr.Valid()
    requires forall i :: i in st.db.subs ==> st.db.subs[i].id == i
    modifies st, mgr`subs, mgr`byChannel, mgr.Retires(id)
    ensures mgr.Valid()
    ensures mgr.subs == old(mgr.subs) - {id}
    ensures st.db.(subs := map[]) == old(st.db).(subs := map[])
    ensures var was := old(st.db).subs;
      if id in was && was[id].tenant == tenant && was[id].disabledAt == 0 && stores
      then st.db.subs.Keys == was.Keys && st.db.subs[id].disabledAt == now
           && forall other :: other in was && other != id ==> st.db.subs[other] == was[other]
      else st.db.subs == was
    ensures State(st, mgr) ==
      if stores then AutoDisabled(old(State(st, mgr)), tenant, id, now)
      else System(old(st.db), old(mgr.Cached()) - {id})
  {
    if !(id in st.db.subs && st.db.subs[id].tenant == tenant) {
      mgr.Remove(id);
      return;
    }
    var sub := st.db.subs[id];
    if sub.disabledAt == 0 {
      sub := sub.(disabledAt := now);
      if stores {
        var _ := st.UpdateSubscription(tenant, sub);
      }
    }
    mgr.Remove(id);
  }
}
