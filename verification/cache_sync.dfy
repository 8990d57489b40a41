/**
 The incrementally maintained cache against a rebuild from the store, over any sequence of
 creates, updates, deletes, auto-disables and reloads (internal/subops/subops.go with
 internal/webhook/manager.go and worker.go). Operations run one at a time and store calls succeed.
 */
module CacheSync {
  import opened Base
  import opened Subscription
  import opened Storage
  import opened Manager
  import opened Subops

  datatype Op =
    | DoCreate(bot: Bot, new_: CreateInput, id: Id, secret: string)
    | DoUpdate(bot: Bot, target: Option<Id>, patch: UpdateInput, now: int)
    | DoDelete(bot: Bot, target: Option<Id>)
    | DoAutoDisable(tenant: Id, id: Id, now: int)
    | DoReload

  /** What each operation does to store and cache; the methods of Subops and Manager do exactly this. */
  ghost function Effect(env: Env, tenants: seq<Id>, y: System, op: Op): System {
    match op
    case DoCreate(bot, new_, id, secret) =>
      var r := NewRow(env, y.db, bot, new_, id, secret);
      if r.Ok? then Inserted(env.parsers, y, r.value) else y
    case DoUpdate(bot, target, patch, now) =>
      var r := UpdatedRow(env, y.db, bot, target, patch, now);
      if r.Ok? then Rewritten(env.parsers, y, r.value) else y
    case DoDelete(bot, target) =>
      if OwnRow(y.db, bot, target).Ok? then Erased(y, target.value) else y
    case DoAutoDisable(tenant, id, now) => AutoDisabled(y, tenant, id, now)
    case DoReload => System(y.db, Rebuilt(env.parsers, y.db, tenants))
  }

  /**
   The operation comes from a caller of a known tenant, with fresh ids, secrets and clock
   readings; an auto-disable names the tenant its subscription was created in.
   */
  ghost predicate Proper(tenants: seq<Id>, y: System, op: Op) {
    match op
    case DoCreate(bot, _, id, secret) => bot.tenant in tenants && id !in y.db.subs && secret != ""
    case DoUpdate(_, _, _, now) => now > 0
    case DoAutoDisable(tenant, id, now) => now > 0 && (id in y.db.subs ==> y.db.subs[id].tenant == tenant)
    case _ => true
  }

  /** The methods do exactly this to the store and the cache; only a reload whose queries fail does less. */
  method Perform<T>(env: Env, tenants: seq<Id>, st: Store, mgr: Manager<T>, op: Op, l: Listings) returns (ok: bool)
    requires mgr.Valid() && Proper(tenants, State(st, mgr), op) && Lists(st.db, l)
    requires forall i :: i in st.db.subs ==> st.db.subs[i].id == i
    modifies st, mgr, mgr.subs.Values
    ensures mgr.Valid() && (ok || op.DoReload?)
    ensures ok ==> State(st, mgr) == Effect(env, tenants, old(State(st, mgr)), op)
  {
    ok := true;
    match op {
      case DoCreate(bot, new_, id, secret) =>
        var _ := Create(env, st, mgr, bot, new_, id, secret, true);
      case DoUpdate(bot, target, patch, now) =>
        var _ := Update(env, st, mgr, bot, target, patch, now, true);
      case DoDelete(bot, target) =>
        var _ := Delete(st, mgr, bot, target, true);
      case DoAutoDisable(tenant, id, now) =>
        AutoDisable(st, mgr, tenant, id, now, true);
      case DoReload =>
        ok := mgr.Reload(env.parsers, tenants, l, st.db);
    }
  }

  /** What holds of one stored subscription. */
  ghost predicate RowOk(p: Parsers, db: Db, tenants: seq<Id>, id: Id)
    requires id in db.subs
  {
    var row := db.subs[id];
    && row.id == id && row.secret != "" && p.Matches(row.matchJson) && row.tenant in tenants
    && row.channel in db.channels && db.channels[row.channel] == row.tenant
  }

  ghost predicate StoreOk(p: Parsers, db: Db, tenants: seq<Id>) {
    && p.dailyMax("{}") == Some(0)
    && (forall k :: k in db.names ==> db.names[k] in db.channels && db.channels[db.names[k]] == k.0)
    && forall id :: id in db.subs ==> RowOk(p, db, tenants, id)
  }

  ghost predicate Synced(p: Parsers, y: System, tenants: seq<Id>) {
    y.cached == Rebuilt(p, y.db, tenants)
  }

  /** The update enables or keeps enabled a cached subscription, with a budget that does not parse. */
  predicate LeavesStale(env: Env, y: System, op: Op) {
    op.DoUpdate?
    && var r := UpdatedRow(env, y.db, op.bot, op.target, op.patch, op.now);
       r.Ok? && r.value.disabledAt == 0 && env.parsers.Budget(r.value.budgetJson).None? && r.value.id in y.cached
  }

  lemma CompileAsStored(p: Parsers, row: SubRow)
    requires p.dailyMax("{}") == Some(0)
    ensures Compile(p, AsStored(row)) == Compile(p, row)
  {
  }

  lemma LoadsPut(p: Parsers, db: Db, tenants: seq<Id>, row: SubRow, id: Id)
    requires p.dailyMax("{}") == Some(0)
    requires row.tenant in tenants && row.channel in db.channels && db.channels[row.channel] == row.tenant
    ensures Loads(p, db.(subs := db.subs[row.id := AsStored(row)]), tenants, id)
      <==> if id == row.id then row.disabledAt == 0 && Compile(p, row).Some? else Loads(p, db, tenants, id)
  {
    CompileAsStored(p, row);
  }

  /** Writing one good row changes the rebuild in that one place. */
  lemma RebuiltPut(p: Parsers, db: Db, tenants: seq<Id>, row: SubRow)
    requires p.dailyMax("{}") == Some(0)
    requires row.tenant in tenants && row.channel in db.channels && db.channels[row.channel] == row.tenant
    ensures Rebuilt(p, db.(subs := db.subs[row.id := AsStored(row)]), tenants)
         == if row.disabledAt == 0 && Compile(p, row).Some?
            then Rebuilt(p, db, tenants)[row.id := Compile(p, row).value] else Rebuilt(p, db, tenants) - {row.id}
  {
    CompileAsStored(p, row);
    var after := Rebuilt(p, db.(subs := db.subs[row.id := AsStored(row)]), tenants);
    forall id ensures id in after <==>
      if id == row.id then row.disabledAt == 0 && Compile(p, row).Some? else id in Rebuilt(p, db, tenants)
    {
      LoadsPut(p, db, tenants, row, id);
    }
  }

  lemma RebuiltErase(p: Parsers, db: Db, tenants: seq<Id>, id: Id)
    ensures Rebuilt(p, db.(subs := db.subs - {id}), tenants) == Rebuilt(p, db, tenants) - {id}
  {
    var db' := db.(subs := db.subs - {id});
    forall i ensures i != id ==> (Loads(p, db', tenants, i) <==> Loads(p, db, tenants, i)) {}
  }

  lemma StoreStaysOk(env: Env, tenants: seq<Id>, y: System, op: Op)
    requires StoreOk(env.parsers, y.db, tenants) && Proper(tenants, y, op)
    ensures StoreOk(env.parsers, Effect(env, tenants, y, op).db, tenants)
  {
    var db' := Effect(env, tenants, y, op).db;
    forall id | id in db'.subs ensures RowOk(env.parsers, db', tenants, id) {
      if id in y.db.subs { assert RowOk(env.parsers, y.db, tenants, id); }
    }
  }

  /**
   The exact condition: starting in step with the store, an operation leaves the cache equal to
   what a reload would build, unless it is an update that keeps a cached subscription enabled
   while its budget no longer parses. AddOrUpdate then fails and the old version stays cached.
   */
  lemma {:induction false} StaysSyncedIff(env: Env, tenants: seq<Id>, y: System, op: Op)
    requires StoreOk(env.parsers, y.db, tenants) && Proper(tenants, y, op) && Synced(env.parsers, y, tenants)
    ensures Synced(env.parsers, Effect(env, tenants, y, op), tenants) <==> !LeavesStale(env, y, op)
  {
    var p := env.parsers;
    match op
    case DoCreate(bot, new_, id, secret) =>
      var r := NewRow(env, y.db, bot, new_, id, secret);
      if r.Ok? {
        RebuiltPut(p, y.db, tenants, r.value);
        assert Rebuilt(p, y.db, tenants) - {id} == Rebuilt(p, y.db, tenants);
      }
    case DoUpdate(bot, target, patch, now) =>
      var r := UpdatedRow(env, y.db, bot, target, patch, now);
      if r.Ok? {
        assert RowOk(p, y.db, tenants, target.value);
        RebuiltPut(p, y.db, tenants, r.value);
        if r.value.disabledAt == 0 && Compile(p, r.value).None? && r.value.id !in y.cached {
          assert y.cached - {r.value.id} == y.cached;
        }
      }
    case DoDelete(bot, target) =>
      if OwnRow(y.db, bot, target).Ok? { RebuiltErase(p, y.db, tenants, target.value); }
    case DoAutoDisable(tenant, id, now) =>
      if id in y.db.subs {
        assert RowOk(p, y.db, tenants, id);
        RebuiltPut(p, y.db, tenants, y.db.subs[id].(disabledAt := now));
      }
      DisabledNotCached(p, y, tenants, tenant, id);
    case DoReload =>
  }

  /** The case that auto-disable finds no enabled row of its tenant. */
  lemma DisabledNotCached(p: Parsers, y: System, tenants: seq<Id>, tenant: Id, id: Id)
    requires StoreOk(p, y.db, tenants) && Synced(p, y, tenants)
    ensures id !in y.db.subs || y.db.subs[id].disabledAt != 0 ==> y.cached - {id} == y.cached
  {
  }

  /** The system after a sequence of operations. */
  ghost function After(env: Env, tenants: seq<Id>, y: System, ops: seq<Op>): System {
    if ops == [] then y
    else Effect(env, tenants, After(env, tenants, y, ops[..|ops| - 1]), ops[|ops| - 1])
  }

  /** Every operation is proper when its turn comes, and none leaves a stale entry. */
  ghost predicate GoodRun(env: Env, tenants: seq<Id>, y: System, ops: seq<Op>) {
    ops != [] ==>
      var before, op := ops[..|ops| - 1], ops[|ops| - 1];
      var z := After(env, tenants, y, before);
      && GoodRun(env, tenants, y, before)
      && Proper(tenants, z, op) && !LeavesStale(env, z, op)
  }

  /** Incremental cache equals rebuild, over every good run. */
  lemma {:induction false} CacheEqualsRebuild(env: Env, tenants: seq<Id>, y: System, ops: seq<Op>)
    requires StoreOk(env.parsers, y.db, tenants) && Synced(env.parsers, y, tenants) && GoodRun(env, tenants, y, ops)
    ensures var z := After(env, tenants, y, ops);
      StoreOk(env.parsers, z.db, tenants) && z.cached == Rebuilt(env.parsers, z.db, tenants)
  {
    if ops != [] {
      var before, op := ops[..|ops| - 1], ops[|ops| - 1];
      CacheEqualsRebuild(env, tenants, y, before);
      StoreStaysOk(env, tenants, After(env, tenants, y, before), op);
      StaysSyncedIff(env, tenants, After(env, tenants, y, before), op);
    }
  }

  /** ... and then the cached ids are exactly the stored subscriptions that are enabled and whose budgets parse. */
  lemma CachedAreTheEnabled(env: Env, tenants: seq<Id>, y: System, ops: seq<Op>, id: Id)
    requires StoreOk(env.parsers, y.db, tenants) && Synced(env.parsers, y, tenants) && GoodRun(env, tenants, y, ops)
    ensures var z := After(env, tenants, y, ops);
      && (id in z.cached <==>
            id in z.db.subs && z.db.subs[id].disabledAt == 0 && env.parsers.Budget(z.db.subs[id].budgetJson).Some?)
      && (id in z.cached ==>
            var p, row, r := env.parsers, z.db.subs[id], z.cached[id];
            && r.id == row.id && r.tenant == row.tenant && r.account == row.account
            && r.channel == row.channel && r.url == row.url && r.secret == row.secret && r.match_ == row.matchJson
            && r.ctxLines == row.ctxLines && r.debounceMs == row.debounceMs && r.cooldownMs == row.cooldownMs
            && Some(r.dailyMax) == if row.budgetJson == "" then Some(0) else p.dailyMax(row.budgetJson))
  {
    CacheEqualsRebuild(env, tenants, y, ops);
    var z := After(env, tenants, y, ops);
    if id in z.db.subs { assert RowOk(env.parsers, z.db, tenants, id); }
  }

  /** An update with an unparsable budget, in a system of one cached subscription in step with its store. */
  lemma BadBudgetLeavesStale(env: Env, row: SubRow, bad: string)
    requires env.parsers.dailyMax("{}") == Some(0) && bad != "" && env.parsers.dailyMax(bad) == None
    requires row.disabledAt == 0 && row.budgetJson == "{}" && row.secret != "" && env.parsers.Matches(row.matchJson)
    ensures var patch := UpdateInput(None, None, None, None, None, None, Some(bad), None);
      var op := DoUpdate(Bot(row.account, row.tenant, true), Some(row.id), patch, 1);
      var y := System(Db(map[row.channel := row.tenant], map[], map[row.id := row], {}),
                      map[row.id := Compile(env.parsers, row).value]);
      var z := Effect(env, [row.tenant], y, op);
      && StoreOk(env.parsers, y.db, [row.tenant]) && Proper([row.tenant], y, op) && Synced(env.parsers, y, [row.tenant])
      && LeavesStale(env, y, op)
      && row.id in z.cached && z.cached[row.id] == y.cached[row.id] && Rebuilt(env.parsers, z.db, [row.tenant]) == map[]
  {
    var patch := UpdateInput(None, None, None, None, None, None, Some(bad), None);
    var bot := Bot(row.account, row.tenant, true);
    var op := DoUpdate(bot, Some(row.id), patch, 1);
    var y := System(Db(map[row.channel := row.tenant], map[], map[row.id := row], {}),
                    map[row.id := Compile(env.parsers, row).value]);
    assert RowOk(env.parsers, y.db, [row.tenant], row.id);
    assert Loads(env.parsers, y.db, [row.tenant], row.id);
    assert UpdatedRow(env, y.db, bot, op.target, patch, 1) == Ok(row.(budgetJson := bad));
    var z := Effect(env, [row.tenant], y, op);
    assert z.db.subs == map[row.id := row.(budgetJson := bad)];
  }

  /** Parsers and a row to which that applies. */
  lemma BadBudgetExists() returns (env: Env, row: SubRow)
    ensures env.parsers.dailyMax("{}") == Some(0) && env.parsers.dailyMax("x") == None
    ensures row.disabledAt == 0 && row.budgetJson == "{}" && row.secret != "" && env.parsers.Matches(row.matchJson)
  {
    env := Env(Parsers(_ => true, s => if s == "{}" then Some(0) else None), _ => true, _ => None);
    row := SubRow(1, 2, 3, 4, "u", "k", "", [], 0, 0, 0, "{}", 0);
  }

  // Operations that overlap: the store is written and the cache updated without a lock over both

  /** One of the two writes of an operation on id; None erases, a disabled row leaves the cache without an entry. */
  datatype Half =
    | ToStore(id: Id, row: Option<SubRow>)
    | ToCache(id: Id, row: Option<SubRow>)

  ghost function Written(p: Parsers, y: System, h: Half): System {
    match h
    case ToStore(id, None) => System(y.db.(subs := y.db.subs - {id}), y.cached)
    case ToStore(id, Some(row)) => System(y.db.(subs := y.db.subs[id := AsStored(row)]), y.cached)
    case ToCache(id, None) => System(y.db, y.cached - {id})
    case ToCache(id, Some(row)) =>
      System(y.db, if row.disabledAt == 0 then CachePut(p, y.cached, row) else y.cached - {id})
  }

  ghost function AfterHalves(p: Parsers, y: System, halves: seq<Half>): System {
    if halves == [] then y else Written(p, AfterHalves(p, y, halves[..|halves| - 1]), halves[|halves| - 1])
  }

  /** What a reload makes of a row. */
  function Entry(p: Parsers, row: Option<SubRow>): Option<Rules> {
    if row.Some? && row.value.disabledAt == 0 then Compile(p, row.value) else None
  }

  /** A cache update of a row that does not compile has no effect. */
  predicate Effective(p: Parsers, h: Half) {
    h.ToCache? && h.row.Some? && h.row.value.disabledAt == 0 ==> Compile(p, h.row.value).Some?
  }

  /** The entry that the last effective write of this kind to id stands for; initially if there is none. */
  function LastSays(p: Parsers, halves: seq<Half>, stores: bool, id: Id, initially: Option<Rules>): Option<Rules> {
    if halves == [] then initially
    else
      var h := halves[|halves| - 1];
      if h.ToStore? == stores && h.id == id && Effective(p, h) then Entry(p, h.row)
      else LastSays(p, halves[..|halves| - 1], stores, id, initially)
  }

  /** The rows written are about a channel of their own, known tenant. */
  ghost predicate Owned(db: Db, tenants: seq<Id>, h: Half) {
    h.row.Some? ==>
      && h.row.value.id == h.id && h.row.value.tenant in tenants
      && h.row.value.channel in db.channels && db.channels[h.row.value.channel] == h.row.value.tenant
  }

  ghost predicate AllOwned(db: Db, tenants: seq<Id>, halves: seq<Half>) {
    forall k :: 0 <= k < |halves| ==> Owned(db, tenants, halves[k])
  }

  function At(m: map<Id, Rules>, id: Id): Option<Rules> {
    if id in m then Some(m[id]) else None
  }

  lemma WrittenSays(p: Parsers, y: System, tenants: seq<Id>, h: Half, id: Id)
    requires p.dailyMax("{}") == Some(0) && Owned(y.db, tenants, h)
    ensures var z := Written(p, y, h);
      && z.db.channels == y.db.channels
      && At(Rebuilt(p, z.db, tenants), id) ==
           (if h.ToStore? && h.id == id then Entry(p, h.row) else At(Rebuilt(p, y.db, tenants), id))
      && At(z.cached, id) == (if h.ToCache? && h.id == id && Effective(p, h) then Entry(p, h.row) else At(y.cached, id))
  {
    if h.ToStore? {
      if h.row.Some? {
        RebuiltPut(p, y.db, tenants, h.row.value);
      } else {
        RebuiltErase(p, y.db, tenants, h.id);
      }
    }
  }

  lemma {:induction false} HalvesSay(p: Parsers, y: System, tenants: seq<Id>, halves: seq<Half>, id: Id)
    requires p.dailyMax("{}") == Some(0) && AllOwned(y.db, tenants, halves)
    ensures var z := AfterHalves(p, y, halves);
      && z.db.channels == y.db.channels
      && At(Rebuilt(p, z.db, tenants), id) == LastSays(p, halves, true, id, At(Rebuilt(p, y.db, tenants), id))
      && At(z.cached, id) == LastSays(p, halves, false, id, At(y.cached, id))
  {
    if halves != [] {
      var most, h := halves[..|halves| - 1], halves[|halves| - 1];
      HalvesSay(p, y, tenants, most, id);
      assert Owned(y.db, tenants, h);
      WrittenSays(p, AfterHalves(p, y, most), tenants, h, id);
    }
  }

  lemma SameEntries(m: map<Id, Rules>, n: map<Id, Rules>)
    ensures m == n <==> forall id :: At(m, id) == At(n, id)
  {
    if forall id :: At(m, id) == At(n, id) {
      forall id ensures id in m <==> id in n { assert At(m, id) == At(n, id); }
      forall id | id in m ensures m[id] == n[id] { assert At(m, id) == At(n, id); }
    }
  }

  /**
   However the writes of overlapping operations interleave, the cache ends up as a reload would build it
   if and only if, for every subscription, the last store write and the last effective cache update stand
   for the same entry.
   */
  lemma {:induction false} InterleavedSyncedIff(p: Parsers, y: System, tenants: seq<Id>, halves: seq<Half>)
    requires p.dailyMax("{}") == Some(0) && AllOwned(y.db, tenants, halves) && Synced(p, y, tenants)
    ensures Synced(p, AfterHalves(p, y, halves), tenants) <==>
      forall id :: LastSays(p, halves, true, id, At(y.cached, id)) == LastSays(p, halves, false, id, At(y.cached, id))
  {
    var z := AfterHalves(p, y, halves);
    forall id
      ensures At(Rebuilt(p, z.db, tenants), id) == LastSays(p, halves, true, id, At(y.cached, id))
      ensures At(z.cached, id) == LastSays(p, halves, false, id, At(y.cached, id))
    {
      HalvesSay(p, y, tenants, halves, id);
    }
    SameEntries(z.cached, Rebuilt(p, z.db, tenants));
  }
}
