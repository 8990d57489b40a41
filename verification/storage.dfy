/**
 The rows the store keeps and what its list queries answer (internal/storage/storage.go and the
 queries of internal/storage/sqlite/sqlite.go). The SQL engine itself is not modelled.
 */
module Storage {
  import opened Base
  import opened Subscription

  /** A row of subscriptions; disabledAt is 0 while the subscription is enabled. */
  datatype SubRow = SubRow(
    id: Id, tenant: Id, account: Id, channel: Id,
    url: string, secret: string, matchJson: string, events: seq<string>,
    ctxLines: int, debounceMs: int, cooldownMs: int, budgetJson: string, disabledAt: int)

  /**
   The durable state: channels maps a channel to its tenant, names a (tenant, name) to its
   channel, and pauses holds (tenant, channel, bot).
   */
  datatype Db = Db(channels: map<Id, Id>, names: map<(Id, string), Id>, subs: map<Id, SubRow>, pauses: set<(Id, Id, Id)>)

  /**
   The two JSON parsers behind compileSubscription. The budget parser answers the daily cap.
   They depend on their argument alone and nothing else is assumed of them.
   */
  datatype Parsers = Parsers(matchOk: string -> bool, dailyMax: string -> Option<int>)
  {
    predicate Matches(matchJson: string) { matchJson == "" || matchOk(matchJson) }

    function Budget(budgetJson: string): Option<int> {
      if budgetJson == "" then Some(0) else dailyMax(budgetJson)
    }
  }

  /** compileSubscription: None stands for its error return. */
  function Compile(p: Parsers, row: SubRow): Option<Rules> {
    if !p.Matches(row.matchJson) then None
    else if p.Budget(row.budgetJson).None? then None
    else if row.secret == "" then None
    else Some(Rules(row.id, row.tenant, row.account, row.channel, row.url, row.secret, row.matchJson,
                    row.ctxLines, row.debounceMs, row.cooldownMs, p.Budget(row.budgetJson).value))
  }

  /** Answers of the list queries, in whatever order; None is a failed call. */
  datatype Listings = Listings(
    channels: Id -> Option<seq<Id>>,
    subs: (Id, Id) -> Option<seq<SubRow>>,
    pauses: Id -> Option<seq<(Id, Id)>>)

  /** The listings that succeed answer what the queries' WHERE clauses select from db. */
  ghost predicate Lists(db: Db, l: Listings) {
    && (forall t: Id, ch: Id :: l.channels(t).Some? ==>
          (ch in l.channels(t).value <==> ch in db.channels && db.channels[ch] == t))
    && (forall t: Id, ch: Id, row :: l.subs(t, ch).Some? ==>
          (row in l.subs(t, ch).value <==>
             row.id in db.subs && db.subs[row.id] == row && row.tenant == t && row.channel == ch && row.disabledAt == 0))
    && (forall t: Id, ch: Id, bot: Id :: l.pauses(t).Some? ==>
          ((ch, bot) in l.pauses(t).value <==> (t, ch, bot) in db.pauses))
  }

  /** A stored subscription that a reload over the given tenants puts into the cache. */
  ghost predicate Loads(p: Parsers, db: Db, tenants: seq<Id>, id: Id) {
    && id in db.subs && db.subs[id].id == id && db.subs[id].disabledAt == 0
    && db.subs[id].tenant in tenants
    && db.subs[id].channel in db.channels && db.channels[db.subs[id].channel] == db.subs[id].tenant
    && Compile(p, db.subs[id]).Some?
  }

  /** What a reload over the given tenants builds. */
  ghost function Rebuilt(p: Parsers, db: Db, tenants: seq<Id>): map<Id, Rules> {
    map id | id in db.subs && Loads(p, db, tenants, id) :: Compile(p, db.subs[id]).value
  }

  ghost function StoredPauses(db: Db, tenants: seq<Id>): set<(Id, Id)> {
    set p | p in db.pauses && p.0 in tenants :: (p.1, p.2)
  }
}
