/**
 The manager's in-memory cache (internal/webhook/manager.go): compiled subscriptions, the index
 of their ids by channel, and the pause set.
 */
module Manager {
  import opened Base
  import opened Subscription
  import opened Storage

  /** The index a full scan of the cache gives: for each channel in use, its subscription ids. */
  function ScanByChannel(cached: map<Id, Rules>): map<Id, set<Id>> {
    map ch | ch in ChannelsOf(cached) :: MembersOf(cached, ch)
  }

  function ChannelsOf(cached: map<Id, Rules>): set<Id> {
    set id | id in cached :: cached[id].channel
  }

  function MembersOf(cached: map<Id, Rules>, ch: Id): set<Id> {
    set id | id in cached && cached[id].channel == ch
  }

  /** Taking id out of the set kept for key, and the key out of the map with its last member. */
  function Unlink(m: map<Id, set<Id>>, key: Id, id: Id): map<Id, set<Id>> {
    if key !in m then m
    else if m[key] - {id} == {} then m - {key}
    else m[key := m[key] - {id}]
  }

  function Link(m: map<Id, set<Id>>, key: Id, id: Id): map<Id, set<Id>> {
    m[key := (if key in m then m[key] else {}) + {id}]
  }

  lemma ScanIndex(cached: map<Id, Rules>, ch: Id, id: Id)
    ensures ch in ScanByChannel(cached) && id in ScanByChannel(cached)[ch]
      <==> id in cached && cached[id].channel == ch
    ensures ch in ScanByChannel(cached) ==> ScanByChannel(cached)[ch] != {}
  {
    if ch in ScanByChannel(cached) {
      var w :| w in cached && cached[w].channel == ch;
      assert w in ScanByChannel(cached)[ch];
    }
  }

  /** Two indexes without empty sets that list the same pairs are the same. */
  lemma IndexUnique(m: map<Id, set<Id>>, n: map<Id, set<Id>>)
    requires forall ch :: ch in m ==> m[ch] != {}
    requires forall ch :: ch in n ==> n[ch] != {}
    requires forall ch, id :: (ch in m && id in m[ch]) <==> (ch in n && id in n[ch])
    ensures m == n
  {
    forall ch ensures ch in m <==> ch in n {
      if ch in m { var id :| id in m[ch]; }
      if ch in n { var id :| id in n[ch]; }
    }
    forall ch | ch in m ensures m[ch] == n[ch] {}
  }

  /** Dropping id from the index keeps it equal to the scan of the cache without id. */
  lemma UnlinkScan(cached: map<Id, Rules>, id: Id)
    requires id in cached
    ensures Unlink(ScanByChannel(cached), cached[id].channel, id) == ScanByChannel(cached - {id})
  {
    var m, n := Unlink(ScanByChannel(cached), cached[id].channel, id), ScanByChannel(cached - {id});
    forall ch, i ensures (ch in m && i in m[ch]) <==> (ch in n && i in n[ch]) {
      ScanIndex(cached, ch, i);
      ScanIndex(cached - {id}, ch, i);
      ScanIndex(cached, cached[id].channel, id);
    }
    forall ch ensures (ch in m ==> m[ch] != {}) && (ch in n ==> n[ch] != {}) {
      ScanIndex(cached, ch, id);
      ScanIndex(cached - {id}, ch, id);
    }
    IndexUnique(m, n);
  }

  /** Adding a subscription, or replacing one on the same channel, likewise. */
  lemma LinkScan(cached: map<Id, Rules>, r: Rules)
    requires r.id in cached ==> cached[r.id].channel == r.channel
    ensures Link(ScanByChannel(cached), r.channel, r.id) == ScanByChannel(cached[r.id := r])
  {
    var m, n := Link(ScanByChannel(cached), r.channel, r.id), ScanByChannel(cached[r.id := r]);
    forall ch, i ensures (ch in m && i in m[ch]) <==> (ch in n && i in n[ch]) {
      ScanIndex(cached, ch, i);
      ScanIndex(cached[r.id := r], ch, i);
    }
    forall ch ensures (ch in m ==> m[ch] != {}) && (ch in n ==> n[ch] != {}) {
      ScanIndex(cached, ch, r.id);
      ScanIndex(cached[r.id := r], ch, r.id);
    }
    IndexUnique(m, n);
  }

  function Pairs(m: map<Id, set<Id>>): set<(Id, Id)> {
    set ch, bot | ch in m && bot in m[ch] :: (ch, bot)
  }

  /** All that the tenants' rows load is among ids. */
  ghost predicate LoadedFor(p: Parsers, db: Db, tenants: seq<Id>, ids: set<Id>) {
    forall id :: Loads(p, db, tenants, id) ==> id in ids
  }

  lemma LoadedMore(p: Parsers, db: Db, tenants: seq<Id>, tenant: Id, ids: set<Id>, ids': set<Id>)
    requires LoadedFor(p, db, tenants, ids) && LoadedFor(p, db, [tenant], ids') && ids <= ids'
    ensures LoadedFor(p, db, tenants + [tenant], ids')
  {
    forall id | Loads(p, db, tenants + [tenant], id) ensures id in ids' {
      LoadsSplit(p, db, tenants, tenant, id);
    }
  }

  lemma LoadsSplit(p: Parsers, db: Db, tenants: seq<Id>, tenant: Id, id: Id)
    ensures Loads(p, db, tenants + [tenant], id) <==> Loads(p, db, tenants, id) || Loads(p, db, [tenant], id)
  {
  }

  /** What a reload builds for id, said on the row. */
  lemma RebuiltFields(p: Parsers, db: Db, tenants: seq<Id>, id: Id)
    ensures id in Rebuilt(p, db, tenants) ==>
      && id in db.subs && db.subs[id].disabledAt == 0 && db.subs[id].tenant in tenants
      && var row, r := db.subs[id], Rebuilt(p, db, tenants)[id];
         && r.id == row.id && r.tenant == row.tenant && r.account == row.account
         && r.channel == row.channel && r.url == row.url && r.secret == row.secret && r.match_ == row.matchJson
         && r.ctxLines == row.ctxLines && r.debounceMs == row.debounceMs && r.cooldownMs == row.cooldownMs
         && Some(r.dailyMax) == if row.budgetJson == "" then Some(0) else p.dailyMax(row.budgetJson)
  {
  }

  lemma RebuiltHas(p: Parsers, db: Db, tenants: seq<Id>, id: Id)
    requires id in db.subs
    ensures var row := db.subs[id];
      && row.id == id && row.disabledAt == 0 && row.tenant in tenants
      && row.channel in db.channels && db.channels[row.channel] == row.tenant
      && (row.matchJson == "" || p.matchOk(row.matchJson))
      && (row.budgetJson == "" || p.dailyMax(row.budgetJson).Some?) && row.secret != ""
      ==> id in Rebuilt(p, db, tenants)
  {
  }

  lemma StoredPausesAre(db: Db, tenants: seq<Id>, ch: Id, bot: Id)
    ensures (ch, bot) in StoredPauses(db, tenants) <==> exists t :: t in tenants && (t, ch, bot) in db.pauses
  {
    if t :| t in tenants && (t, ch, bot) in db.pauses {
      assert ((t, ch, bot).1, (t, ch, bot).2) == (ch, bot);
    }
  }

  lemma PausesSplit(db: Db, tenants: seq<Id>, tenant: Id)
    ensures StoredPauses(db, tenants + [tenant]) == StoredPauses(db, tenants) + StoredPauses(db, [tenant])
  {
  }

  /** The ids include everything a reload is to load from one channel. */
  ghost predicate HasChannel(p: Parsers, db: Db, tenant: Id, ch: Id, ids: set<Id>) {
    forall id :: Loads(p, db, [tenant], id) && db.subs[id].channel == ch ==> id in ids
  }

  ghost predicate HasChannels(p: Parsers, db: Db, tenant: Id, chs: seq<Id>, ids: set<Id>) {
    forall ch :: ch in chs ==> HasChannel(p, db, tenant, ch, ids)
  }

  lemma OneChannelMore(p: Parsers, db: Db, tenant: Id, chs: seq<Id>, j: nat, ids: set<Id>, ids': set<Id>)
    requires j < |chs| && HasChannels(p, db, tenant, chs[..j], ids) && ids <= ids'
    requires HasChannel(p, db, tenant, chs[j], ids')
    ensures HasChannels(p, db, tenant, chs[..j + 1], ids')
  {
    forall ch | ch in chs[..j + 1] ensures HasChannel(p, db, tenant, ch, ids') {
      if ch in chs[..j] { assert HasChannel(p, db, tenant, ch, ids); }
    }
  }

  /** row is stored, for that channel, and enabled. */
  ghost predicate Enabled(db: Db, tenant: Id, channel: Id, row: SubRow) {
    && row.id in db.subs && db.subs[row.id] == row
    && row.tenant == tenant && row.channel == channel && row.disabledAt == 0
  }

  ghost predicate AllLoaded(p: Parsers, rows: seq<SubRow>, ids: set<Id>) {
    forall k :: 0 <= k < |rows| && Compile(p, rows[k]).Some? ==> rows[k].id in ids
  }

  lemma OneRowMore(p: Parsers, rows: seq<SubRow>, k: nat, ids: set<Id>, ids': set<Id>)
    requires k < |rows| && AllLoaded(p, rows[..k], ids) && ids <= ids'
    requires Compile(p, rows[k]).Some? ==> rows[k].id in ids'
    ensures AllLoaded(p, rows[..k + 1], ids')
  {
    forall j | 0 <= j < k && Compile(p, rows[j]).Some? ensures rows[j].id in ids' {
      assert rows[..k][j] == rows[j];
    }
  }

  lemma AllChannels(p: Parsers, db: Db, tenant: Id, chs: seq<Id>, ids: set<Id>)
    requires forall ch :: ch in db.channels && db.channels[ch] == tenant ==> ch in chs
    requires HasChannels(p, db, tenant, chs, ids)
    ensures forall id :: Loads(p, db, [tenant], id) ==> id in ids
  {
    forall id | Loads(p, db, [tenant], id) ensures id in ids {
      assert HasChannel(p, db, tenant, db.subs[id].channel, ids);
    }
  }

  class Manager<T> {
    var subs: map<Id, LiveSubscription<T>>
    var byChannel: map<Id, set<Id>>
    var pauses: map<Id, set<Id>>

    /** The compiled rules in the cache. */
    function Cached(): map<Id, Rules>
      reads this
    {
      map id | id in subs :: subs[id].rules
    }

    function PauseSet(): set<(Id, Id)>
      reads this
    {
      Pairs(pauses)
    }

    /** The index refines a full scan of subs, and no set in either index is empty. */
    ghost predicate Valid()
      reads this
    {
      && (forall id :: id in subs ==> subs[id].rules.id == id)
      && byChannel == ScanByChannel(Cached())
      && (forall ch :: ch in pauses ==> pauses[ch] != {})
    }

    constructor ()
      ensures Valid() && Cached() == map[] && PauseSet() == {}
    {
      subs, byChannel, pauses := map[], map[], map[];
    }

    method IndexByChannel(s: LiveSubscription<T>)
      modifies this`byChannel
      ensures byChannel == Link(old(byChannel), s.rules.channel, s.rules.id)
    {
      var members := if s.rules.channel in byChannel then byChannel[s.rules.channel] else {};
      byChannel := byChannel[s.rules.channel := members + {s.rules.id}];
    }

    method UnlinkChannel(channel: Id, id: Id)
      modifies this`byChannel
      ensures byChannel == Unlink(old(byChannel), channel, id)
    {
      if channel in byChannel {
        var members := byChannel[channel] - {id};
        byChannel := byChannel[channel := members];
        if |members| == 0 {
          byChannel := byChannel - {channel};
        }
      }
    }

    /** The object an update or removal of id retires. */
    function Retires(id: Id): set<LiveSubscription<T>>
      reads this
    {
      if id in subs then {subs[id]} else {}
    }

    /** Puts a compiled object under its id, which the index no longer lists on another channel. */
    method Install(live: LiveSubscription<T>)
      requires
        || (byChannel == ScanByChannel(Cached())
            && (live.rules.id in subs ==> subs[live.rules.id].rules.channel == live.rules.channel))
        || byChannel == ScanByChannel(Cached() - {live.rules.id})
      modifies this`subs, this`byChannel
      ensures subs == old(subs)[live.rules.id := live]
      ensures Cached() == old(Cached())[live.rules.id := live.rules]
      ensures byChannel == ScanByChannel(Cached())
    {
      ghost var cached := if byChannel == ScanByChannel(Cached() - {live.rules.id})
                          then Cached() - {live.rules.id} else Cached();
      LinkScan(cached, live.rules);
      subs := subs[live.rules.id := live];
      IndexByChannel(live);
      assert Cached() == cached[live.rules.id := live.rules];
    }

    /** Stops the timer of the cached version, and unlinks it if the new one is on another channel. */
    method RetireVersion(version: LiveSubscription<T>, channel: Id)
      requires Valid() && version.rules.id in subs && subs[version.rules.id] == version
      modifies this`byChannel, version`debounceTimer
      ensures version.State() == old(version.State()).(timer := old(version.State()).timer.Stop())
      ensures byChannel
           == ScanByChannel(if version.rules.channel == channel then Cached() else Cached() - {version.rules.id})
    {
      version.StopTimer();
      if version.rules.channel != channel {
        UnlinkScan(Cached(), version.rules.id);
        UnlinkChannel(version.rules.channel, version.rules.id);
      }
    }

    /**
     Installs a freshly compiled version and stops the timer of the one it replaces. A row that
     does not compile leaves everything as it was.
     */
    method AddOrUpdate(p: Parsers, row: SubRow) returns (ok: bool)
      requires Valid()
      modifies this`subs, this`byChannel, Retires(row.id)
      ensures Valid()
      // a row compiles when its match rules are good, its budget parses and it has a secret
      ensures ok <==>
        && (row.matchJson == "" || p.matchOk(row.matchJson))
        && (row.budgetJson == "" || p.dailyMax(row.budgetJson).Some?) && row.secret != ""
      // and every field of it goes to its own place
      ensures ok ==>
        && row.id in subs
        && var r := subs[row.id].rules;
           && r.id == row.id && r.tenant == row.tenant && r.account == row.account
           && r.channel == row.channel && r.url == row.url && r.secret == row.secret && r.match_ == row.matchJson
           && r.ctxLines == row.ctxLines && r.debounceMs == row.debounceMs && r.cooldownMs == row.cooldownMs
           && Some(r.dailyMax) == if row.budgetJson == "" then Some(0) else p.dailyMax(row.budgetJson)
      ensures ok ==>
        var s := subs[row.id];
        s.debounceTimer == NoTimer && s.pendingMatches == [] && s.pendingContext == [] && s.lastFire == None
      ensures ok <==> Compile(p, row).Some?
      ensures !ok ==> subs == old(subs) && forall s :: s in old(Retires(row.id)) ==> s.State() == old(s.State())
      ensures ok ==> Cached() == old(Cached())[row.id := Compile(p, row).value]
      ensures ok ==> row.id in subs && fresh(subs[row.id])
      ensures ok ==> subs[row.id].State() == Fresh() && subs[row.id].consec4xx == 0
      ensures ok ==> subs == old(subs)[row.id := subs[row.id]]
      ensures ok ==> forall s :: s in old(Retires(row.id)) ==>
                s.State() == old(s.State()).(timer := old(s.State()).timer.Stop())
    {
      var compiled := Compile(p, row);
      if compiled.None? {
        return false;
      }
      var live := new LiveSubscription<T>(compiled.value);
      if row.id in subs {
        RetireVersion(subs[row.id], live.rules.channel);
      }
      Install(live);
      ok := true;
    }

    /** Idempotent. */
    method Remove(id: Id)
      requires Valid()
      modifies this`subs, this`byChannel, Retires(id)
      ensures Valid()
      ensures subs == old(subs) - {id} && Cached() == old(Cached()) - {id}
      ensures forall s :: s in old(Retires(id)) ==>
                s.State() == old(s.State()).(timer := old(s.State()).timer.Stop())
    {
      if id !in subs {
        assert old(Cached()) - {id} == Cached();
        return;
      }
      var sub := subs[id];
      sub.StopTimer();
      UnlinkScan(Cached(), id);
      subs := subs - {id};
      UnlinkChannel(sub.rules.channel, id);
      assert Cached() == old(Cached()) - {id};
    }

    method SetBotPaused(channel: Id, bot: Id, paused: bool)
      requires Valid()
      modifies this`pauses
      ensures Valid()
      ensures PauseSet() == if paused then old(PauseSet()) + {(channel, bot)} else old(PauseSet()) - {(channel, bot)}
    {
      if paused {
        var bots := if channel in pauses then pauses[channel] else {};
        pauses := pauses[channel := bots + {bot}];
        return;
      }
      if channel !in pauses {
        return;
      }
      var bots := pauses[channel] - {bot};
      pauses := pauses[channel := bots];
      if |bots| == 0 {
        pauses := pauses - {channel};
      }
    }

    method IsBotPaused(channel: Id, bot: Id) returns (paused: bool)
      ensures paused <==> (channel, bot) in PauseSet()
    {
      paused := channel in pauses && bot in pauses[channel];
    }

    /** Notify's snapshot: each cached subscription of the channel once, and the channel's paused bots. */
    method Snapshot(channel: Id) returns (live: seq<LiveSubscription<T>>, paused: set<Id>)
      requires Valid()
      ensures forall i :: 0 <= i < |live| ==> live[i].rules.channel == channel && live[i].rules.id in subs && subs[live[i].rules.id] == live[i]
      ensures forall id :: id in subs && subs[id].rules.channel == channel ==> subs[id] in live
      ensures forall i, j :: 0 <= i < j < |live| ==> live[i] != live[j]
      ensures live != [] ==> forall bot :: bot in paused <==> (channel, bot) in PauseSet()
    {
      live, paused := [], {};
      if channel !in byChannel {
        forall id | id in subs ensures subs[id].rules.channel != channel {
          ScanIndex(Cached(), channel, id);
        }
        return;
      }
      var todo := byChannel[channel];
      forall id ensures id in todo <==> id in subs && subs[id].rules.channel == channel {
        ScanIndex(Cached(), channel, id);
      }
      while todo != {}
        invariant todo <= byChannel[channel]
        invariant forall i :: 0 <= i < |live| ==>
          live[i].rules.id in byChannel[channel] - todo && subs[live[i].rules.id] == live[i]
        invariant forall id :: id in byChannel[channel] - todo ==> subs[id] in live
        invariant forall i, j :: 0 <= i < j < |live| ==> live[i] != live[j]
        decreases todo
      {
        var id :| id in todo;
        todo := todo - {id};
        if id in subs {
          live := live + [subs[id]];
        }
      }
      if channel in pauses {
        paused := pauses[channel];
      }
    }

    /**
     Rebuilds the cache from the store, tenant by tenant. When a listing fails the cache is left
     with a part of what a complete reload would have built.
     */
    method Reload(p: Parsers, tenants: seq<Id>, l: Listings, ghost db: Db) returns (ok: bool)
      requires Lists(db, l)
      modifies this
      ensures Valid()
      // what is cached comes from enabled rows of these tenants, field by field
      ensures forall id :: id in subs ==>
        && id in db.subs && db.subs[id].disabledAt == 0 && db.subs[id].tenant in tenants
        && var row, r := db.subs[id], subs[id].rules;
           && r.id == row.id && r.tenant == row.tenant && r.account == row.account
           && r.channel == row.channel && r.url == row.url && r.secret == row.secret && r.match_ == row.matchJson
           && r.ctxLines == row.ctxLines && r.debounceMs == row.debounceMs && r.cooldownMs == row.cooldownMs
           && Some(r.dailyMax) == if row.budgetJson == "" then Some(0) else p.dailyMax(row.budgetJson)
      // and a complete reload leaves none out
      ensures ok ==> forall id :: id in db.subs ==>
        var row := db.subs[id];
        && row.id == id && row.disabledAt == 0 && row.tenant in tenants
        && row.channel in db.channels && db.channels[row.channel] == row.tenant
        && (row.matchJson == "" || p.matchOk(row.matchJson))
        && (row.budgetJson == "" || p.dailyMax(row.budgetJson).Some?) && row.secret != ""
        ==> id in subs
      ensures ok ==> forall ch: Id, bot: Id :: (ch, bot) in PauseSet() <==> exists t :: t in tenants && (t, ch, bot) in db.pauses
      ensures ok ==> Cached() == Rebuilt(p, db, tenants) && PauseSet() == StoredPauses(db, tenants)
      ensures forall id :: id in Cached() ==> id in Rebuilt(p, db, tenants) && Cached()[id] == Rebuilt(p, db, tenants)[id]
      ensures PauseSet() <= StoredPauses(db, tenants)
    {
      ok := LoadTenants(p, tenants, l, db);
      forall id | id in subs ensures id in Cached() && Cached()[id] == subs[id].rules { RebuiltFields(p, db, tenants, id); }
      if ok {
        forall id | id in db.subs { RebuiltHas(p, db, tenants, id); }
        forall ch: Id, bot: Id { StoredPausesAre(db, tenants, ch, bot); }
      }
    }

    method LoadTenants(p: Parsers, tenants: seq<Id>, l: Listings, ghost db: Db) returns (ok: bool)
      requires Lists(db, l)
      modifies this
      ensures Valid()
      ensures ok ==> Cached() == Rebuilt(p, db, tenants) && PauseSet() == StoredPauses(db, tenants)
      ensures forall id :: id in Cached() ==> id in Rebuilt(p, db, tenants) && Cached()[id] == Rebuilt(p, db, tenants)[id]
      ensures PauseSet() <= StoredPauses(db, tenants)
    {
      subs, byChannel, pauses := map[], map[], map[];
      var i := 0;
      while i < |tenants|
        invariant 0 <= i <= |tenants|
        invariant Valid() && Within(p, db, tenants)
        invariant LoadedFor(p, db, tenants[..i], subs.Keys)
        invariant PauseSet() == StoredPauses(db, tenants[..i])
      {
        ghost var had := subs.Keys;
        ok := LoadTenant(p, tenants, tenants[i], l, db);
        if !ok {
          return;
        }
        assert tenants[..i + 1] == tenants[..i] + [tenants[i]];
        LoadedMore(p, db, tenants[..i], tenants[i], had, subs.Keys);
        PausesSplit(db, tenants[..i], tenants[i]);
        i := i + 1;
      }
      assert tenants[..|tenants|] == tenants;
      return true;
    }

    method LoadTenant(p: Parsers, ghost tenants: seq<Id>, tenant: Id, l: Listings, ghost db: Db) returns (ok: bool)
      requires Lists(db, l) && Valid() && Within(p, db, tenants) && tenant in tenants
      modifies this
      ensures Valid() && Within(p, db, tenants)
      ensures old(subs).Keys <= subs.Keys
      ensures ok ==> LoadedFor(p, db, [tenant], subs.Keys)
      ensures PauseSet() == if ok then old(PauseSet()) + StoredPauses(db, [tenant]) else old(PauseSet())
    {
      var chs := l.channels(tenant);
      if chs.None? {
        return false;
      }
      ok := LoadChannels(p, tenants, tenant, chs.value, l, db);
      if !ok {
        return;
      }
      var stored := l.pauses(tenant);
      if stored.None? {
        return false;
      }
      LoadPauses(stored.value);
      assert (set q | q in stored.value) == StoredPauses(db, [tenant]) by {
        forall ch: Id, bot: Id ensures (ch, bot) in stored.value <==> (tenant, ch, bot) in db.pauses {}
      }
    }

    /** Everything cached is something the reload is to build. */
    ghost predicate Within(p: Parsers, db: Db, tenants: seq<Id>)
      reads this
    {
      forall id :: id in subs ==>
        Loads(p, db, tenants, id) && subs[id].rules == Compile(p, db.subs[id]).value
    }

    method LoadChannels(p: Parsers, ghost tenants: seq<Id>, tenant: Id, chs: seq<Id>, l: Listings, ghost db: Db)
      returns (ok: bool)
      requires Lists(db, l) && Valid() && Within(p, db, tenants) && tenant in tenants
      requires forall ch :: ch in chs <==> ch in db.channels && db.channels[ch] == tenant
      modifies this`subs, this`byChannel
      ensures Valid() && Within(p, db, tenants)
      ensures old(subs).Keys <= subs.Keys
      ensures ok ==> forall id :: Loads(p, db, [tenant], id) ==> id in subs
    {
      for j := 0 to |chs|
        invariant Valid() && Within(p, db, tenants)
        invariant old(subs).Keys <= subs.Keys
        invariant HasChannels(p, db, tenant, chs[..j], subs.Keys)
      {
        assert chs[j] in chs;
        ghost var ids := subs.Keys;
        ok := LoadChannel(p, tenants, tenant, chs[j], l, db);
        if !ok {
          return;
        }
        OneChannelMore(p, db, tenant, chs, j, ids, subs.Keys);
      }
      assert chs[..|chs|] == chs;
      AllChannels(p, db, tenant, chs, subs.Keys);
      return true;
    }

    method LoadChannel(p: Parsers, ghost tenants: seq<Id>, tenant: Id, ch: Id, l: Listings, ghost db: Db)
      returns (ok: bool)
      requires Lists(db, l) && Valid() && Within(p, db, tenants) && tenant in tenants
      requires ch in db.channels && db.channels[ch] == tenant
      modifies this`subs, this`byChannel
      ensures Valid() && Within(p, db, tenants)
      ensures old(subs).Keys <= subs.Keys
      ensures ok ==> HasChannel(p, db, tenant, ch, subs.Keys)
    {
      var rows := l.subs(tenant, ch);
      if rows.None? {
        return false;
      }
      forall k | 0 <= k < |rows.value| ensures Enabled(db, tenant, ch, rows.value[k]) {
        assert rows.value[k] in rows.value;
      }
      LoadRows(p, tenants, tenant, ch, rows.value, db);
      forall id | Loads(p, db, [tenant], id) && db.subs[id].channel == ch ensures id in subs {
        var k :| 0 <= k < |rows.value| && rows.value[k] == db.subs[id];
      }
      return true;
    }

    method LoadRows(p: Parsers, ghost tenants: seq<Id>, ghost tenant: Id, ghost channel: Id, rows: seq<SubRow>, ghost db: Db)
      requires Valid() && Within(p, db, tenants) && tenant in tenants
      requires channel in db.channels && db.channels[channel] == tenant
      requires forall k :: 0 <= k < |rows| ==> Enabled(db, tenant, channel, rows[k])
      modifies this`subs, this`byChannel
      ensures Valid() && Within(p, db, tenants)
      ensures old(subs).Keys <= subs.Keys
      ensures AllLoaded(p, rows, subs.Keys)
    {
      var k := 0;
      while k < |rows|
        invariant 0 <= k <= |rows|
        invariant Valid() && Within(p, db, tenants)
        invariant old(subs).Keys <= subs.Keys
        invariant AllLoaded(p, rows[..k], subs.Keys)
      {
        ghost var ids := subs.Keys;
        LoadRow(p, tenants, tenant, channel, rows[k], db);
        OneRowMore(p, rows, k, ids, subs.Keys);
        k := k + 1;
      }
      assert rows[..|rows|] == rows;
    }

    method LoadRow(p: Parsers, ghost tenants: seq<Id>, ghost tenant: Id, ghost channel: Id, row: SubRow, ghost db: Db)
      requires Valid() && Within(p, db, tenants) && tenant in tenants
      requires channel in db.channels && db.channels[channel] == tenant
      requires Enabled(db, tenant, channel, row)
      modifies this`subs, this`byChannel
      ensures Valid() && Within(p, db, tenants)
      ensures old(subs).Keys <= subs.Keys
      ensures Compile(p, row).Some? ==> row.id in subs
    {
      var compiled := Compile(p, row);
      if compiled.Some? {
        var live := new LiveSubscription<T>(compiled.value);
        Install(live);
        assert Loads(p, db, tenants, row.id);
      }
    }

    method LoadPauses(stored: seq<(Id, Id)>)
      requires Valid()
      modifies this`pauses
      ensures Valid()
      ensures PauseSet() == old(PauseSet()) + set q | q in stored
    {
      var k := 0;
      while k < |stored|
        invariant 0 <= k <= |stored|
        invariant Valid()
        invariant PauseSet() == old(PauseSet()) + set q | q in stored[..k]
      {
        assert stored[..k + 1] == stored[..k] + [stored[k]];
        assert stored[k] == (stored[k].0, stored[k].1);
        SetBotPaused(stored[k].0, stored[k].1, true);
        k := k + 1;
      }
      assert stored[..|stored|] == stored;
    }
  }
}
