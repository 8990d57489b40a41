/**
 In-memory channels (internal/channels/channels.go): the members of a channel, its history ring,
 and the sharded registry.
 */
module Channels {
  import opened Base

  /** A connection as a member of a channel; these three never change once it has joined one. */
  datatype Member = Member(conn: Id, account: Id, displayName: string)

  /** time.Time{}: midnight, January 1, year 1, in nanoseconds from the Unix epoch. */
  const ZERO_TIME := -62_135_596_800 * SECOND

  datatype HistoryEntry = HistoryEntry(from: Id, displayName: string, ts: int, body: string)
  {
    /** Looks like a slot that was never written. */
    predicate Blank() { ts == ZERO_TIME && body == "" }
  }

  const UNUSED := HistoryEntry(0, "", ZERO_TIME, "")
  const DEPTH := 32

  /** The longest suffix of s without a blank entry. */
  function AfterLastBlank(s: seq<HistoryEntry>): seq<HistoryEntry> {
    if s == [] || s[|s| - 1].Blank() then []
    else AfterLastBlank(s[..|s| - 1]) + [s[|s| - 1]]
  }

  /** What RecentMessages answers from the whole log of the channel. */
  function Recent(log: seq<HistoryEntry>, n: int): seq<HistoryEntry> {
    AfterLastBlank(LastN(log, Min(n, DEPTH)))
  }

  ghost predicate NoneBlank(s: seq<HistoryEntry>) {
    forall e :: e in s ==> !e.Blank()
  }

  /** s is cut right after its last blank entry. */
  lemma {:induction false} SuffixAfterBlank(s: seq<HistoryEntry>, k: nat)
    requires k <= |s| && NoneBlank(s[|s| - k..])
    requires k < |s| ==> s[|s| - 1 - k].Blank()
    ensures AfterLastBlank(s) == s[|s| - k..]
  {
    if k > 0 {
      var t, last := s[..|s| - 1], s[|s| - 1];
      LastBack(s, k);
      assert last in s[|s| - k..];
      SuffixAfterBlank(t, k - 1);
      assert AfterLastBlank(s) == AfterLastBlank(t) + [last];
    }
  }

  lemma LastBack<T>(s: seq<T>, k: nat)
    requires 0 < k <= |s|
    ensures s[|s| - k..] == s[..|s| - 1][|s| - k..] + [s[|s| - 1]]
  {
  }

  lemma {:induction false} BlankCuts(s: seq<HistoryEntry>)
    ensures |AfterLastBlank(s)| <= |s|
    ensures AfterLastBlank(s) == s <==> forall i :: 0 <= i < |s| ==> !s[i].Blank()
  {
    if s != [] {
      var t := s[..|s| - 1];
      BlankCuts(t);
      if !s[|s| - 1].Blank() {
        assert AfterLastBlank(s)[..|AfterLastBlank(s)| - 1] == AfterLastBlank(t);
        assert AfterLastBlank(t) == t ==> AfterLastBlank(s) == s;
      }
    }
  }

  /**
   RecentMessages answers exactly the last min(n, 32, count) entries, oldest first, precisely
   when none of them is blank.
   */
  lemma RecentIsLastEntriesIff(log: seq<HistoryEntry>, n: int)
    ensures Recent(log, n) == LastN(log, Min(n, 32)) <==> forall e :: e in LastN(log, Min(n, 32)) ==> !e.Blank()
    ensures |LastN(log, Min(n, 32))| == Max(0, Min(n, Min(32, |log|)))
  {
    var s := LastN(log, Min(n, DEPTH));
    BlankCuts(s);
    if forall i :: 0 <= i < |s| ==> !s[i].Blank() {
      forall e | e in s ensures !e.Blank() {}
    }
  }

  class Channel {
    const tenant: Id
    const id: Id
    const name: string
    var members: map<Id, Member>
    const hist: array<HistoryEntry>
    var histPos: nat
    ghost var log: seq<HistoryEntry>

    /** The ring holds the newest entries of the log, and blanks where nothing was written yet. */
    ghost predicate Valid()
      reads this, hist
    {
      && hist.Length == DEPTH
      && histPos == |log| % DEPTH
      && (forall p :: Max(0, |log| - DEPTH) <= p < |log| ==> hist[p % DEPTH] == log[p])
      && (forall j :: |log| <= j < DEPTH ==> hist[j] == UNUSED)
    }

    constructor (tenant: Id, id: Id, name: string)
      ensures Valid() && log == [] && members == map[] && fresh(hist)
      ensures this.tenant == tenant && this.id == id && this.name == name
    {
      this.tenant, this.id, this.name := tenant, id, name;
      members, histPos, log := map[], 0, [];
      hist := new HistoryEntry[DEPTH](_ => UNUSED);
    }

    method AddMember(m: Member) returns (added: bool)
      modifies this`members
      ensures members == old(members)[m.conn := m]
      ensures added <==> m.conn !in old(members)
    {
      added := m.conn !in members;
      members := members[m.conn := m];
    }

    method RemoveMember(conn: Id) returns (removed: bool)
      modifies this`members
      ensures members == old(members) - {conn}
      ensures removed <==> conn in old(members)
    {
      removed := conn in members;
      members := members - {conn};
    }

    method AppendHistory(e: HistoryEntry)
      requires Valid()
      modifies this`histPos, this`log, hist
      ensures Valid() && log == old(log) + [e]
    {
      NextSlot(|log|);
      hist[histPos] := e;
      histPos := (histPos + 1) % hist.Length;
      log := log + [e];
      forall p | Max(0, |log| - DEPTH) <= p < |log| - 1 ensures p % DEPTH != (|log| - 1) % DEPTH {
        DistinctSlots(p, |log| - 1);
      }
    }

    /** Walks back from the write position, then reverses what it found in place. */
    method RecentMessages(n: int) returns (recent: seq<HistoryEntry>)
      requires Valid()
      ensures recent == Recent(log, n)
    {
      if n <= 0 {
        return [];
      }
      var want := if n > hist.Length then hist.Length else n;
      recent := LastEntries(want);
      ReversedWalk(log, n, |recent|);
    }

    /** Up to want entries from the end of the log, oldest first. */
    method LastEntries(want: nat) returns (recent: seq<HistoryEntry>)
      requires Valid() && want <= DEPTH
      ensures |recent| <= want && |recent| <= |log| && recent == log[|log| - |recent|..] && NoneBlank(recent)
      ensures |recent| < want ==> |recent| == |log| || log[|log| - 1 - |recent|].Blank()
    {
      var out := new HistoryEntry[want];
      var k;
      ghost var walked;
      k, walked := WalkBack(out);
      recent := TakeReversed(out, k);
      TurnedRound(log, walked, recent);
    }

    /** Picks entries from the write position backwards until out is full or a slot is blank. */
    method WalkBack(out: array<HistoryEntry>) returns (k: nat, ghost walked: seq<HistoryEntry>)
      requires Valid() && out.Length <= DEPTH && out != hist
      modifies out
      ensures k <= out.Length && k <= |log|
      ensures walked == out[..k] && IsWalk(log, walked)
      ensures k < out.Length ==> k == |log| || log[|log| - 1 - k].Blank()
    {
      k, walked := 0, [];
      while k < out.Length
        invariant k <= out.Length && k <= |log|
        invariant walked == out[..k] && IsWalk(log, walked)
      {
        SlotHolds(k);
        var e := hist[(histPos - 1 - k + hist.Length) % hist.Length];
        if e.Blank() {
          return;
        }
        out[k] := e;
        k, walked := k + 1, walked + [e];
      }
    }

    lemma SlotHolds(k: nat)
      requires Valid() && k < DEPTH
      ensures var idx := (histPos - 1 - k + DEPTH) % DEPTH;
        0 <= idx < DEPTH && hist[idx] == if k < |log| then log[|log| - 1 - k] else UNUSED
    {
      SlotBehind(|log|, k);
    }
  }

  /** walked is the end of the log from the back, and no entry of it is blank. */
  ghost predicate IsWalk(log: seq<HistoryEntry>, walked: seq<HistoryEntry>) {
    |walked| <= |log| && forall t :: 0 <= t < |walked| ==> walked[t] == log[|log| - 1 - t] && !walked[t].Blank()
  }

  function Backwards<T>(s: seq<T>): seq<T> {
    seq(|s|, t requires 0 <= t < |s| => s[|s| - 1 - t])
  }

  /** A walk from the back, turned round, is the end of the log. */
  lemma TurnedRound(log: seq<HistoryEntry>, walked: seq<HistoryEntry>, recent: seq<HistoryEntry>)
    requires IsWalk(log, walked) && recent == Backwards(walked)
    ensures |recent| == |walked| <= |log| && recent == log[|log| - |recent|..] && NoneBlank(recent)
  {
    forall e | e in recent ensures !e.Blank() {
      var t :| 0 <= t < |recent| && recent[t] == e;
      assert e == walked[|walked| - 1 - t];
    }
    forall t | 0 <= t < |recent| ensures recent[t] == log[|log| - |recent| + t] {
      assert recent[t] == walked[|walked| - 1 - t];
    }
  }

  lemma LastNIs<T>(s: seq<T>, n: nat)
    ensures LastN(s, n) == s[|s| - Min(n, |s|)..]
  {
  }

  lemma RecentOfEnd(log: seq<HistoryEntry>, n: int, s: seq<HistoryEntry>, k: nat)
    requires LastN(log, Min(n, DEPTH)) == s
    requires k <= |s| && NoneBlank(s[|s| - k..]) && (k < |s| ==> s[|s| - 1 - k].Blank())
    ensures Recent(log, n) == s[|s| - k..]
  {
    SuffixAfterBlank(s, k);
  }

  lemma SuffixOfSuffix<T>(s: seq<T>, m: nat, k: nat)
    requires k <= m <= |s|
    ensures s[|s| - m..][m - k..] == s[|s| - k..]
    ensures k < m ==> s[|s| - m..][m - 1 - k] == s[|s| - 1 - k]
  {
  }

  /** A backward walk of k entries, turned round, is what Recent asks for. */
  lemma ReversedWalk(log: seq<HistoryEntry>, n: int, k: nat)
    requires n > 0 && k <= Min(n, DEPTH) && k <= |log|
    requires NoneBlank(log[|log| - k..])
    requires k < Min(n, DEPTH) && k < |log| ==> log[|log| - 1 - k].Blank()
    ensures Recent(log, n) == log[|log| - k..]
  {
    var m := Min(Min(n, DEPTH), |log|);
    var s := log[|log| - m..];
    LastNIs(log, Min(n, DEPTH));
    SuffixOfSuffix(log, m, k);
    RecentOfEnd(log, n, s, k);
  }

  lemma NextSlot(n: nat)
    ensures (n % DEPTH + 1) % DEPTH == (n + 1) % DEPTH
  {
  }

  /** Positions less than one turn apart are in different slots. */
  lemma DistinctSlots(p: nat, q: nat)
    requires p < q < p + DEPTH
    ensures p % DEPTH != q % DEPTH
  {
  }

  /** The slot the walk visits after k entries: the log position it holds, or one never written. */
  lemma SlotBehind(count: nat, k: nat)
    requires k < DEPTH
    ensures var idx := (count % DEPTH - 1 - k + DEPTH) % DEPTH;
      && 0 <= idx < DEPTH
      && (k < count ==> idx == (count - 1 - k) % DEPTH)
      && (k >= count ==> count <= idx)
  {
  }

  method Reverse<T>(a: array<T>, n: nat)
    requires n <= a.Length
    modifies a
    ensures forall t :: 0 <= t < n ==> a[t] == old(a[n - 1 - t])
    ensures forall t :: n <= t < a.Length ==> a[t] == old(a[t])
  {
    var i, j := 0, n - 1;
    while i < j
      invariant 0 <= i <= j + 1 && i + j == n - 1
      invariant forall t :: 0 <= t < i || j < t < n ==> a[t] == old(a[n - 1 - t])
      invariant forall t :: i <= t <= j || n <= t < a.Length ==> a[t] == old(a[t])
    {
      a[i], a[j] := a[j], a[i];
      i, j := i + 1, j - 1;
    }
  }

  method TakeReversed<T>(a: array<T>, n: nat) returns (s: seq<T>)
    requires n <= a.Length
    modifies a
    ensures s == Backwards(old(a[..n]))
  {
    Reverse(a, n);
    s := a[..n];
  }

  // The registry

  datatype Key = Key(tenant: Id, chan: Id)

  const SHARDS := 64

  /** Channels of all tenants, spread over shards by a hash of their key. */
  class Registry {
    const shards: array<map<Key, Channel>>
    const hash: Key -> nat

    constructor (hash: Key -> nat)
      ensures Valid() && fresh(shards) && this.hash == hash
      ensures forall k :: Find(k) == None
    {
      this.hash := hash;
      shards := new map<Key, Channel>[SHARDS](_ => map[]);
    }

    /** Each channel is under its own key, in the shard its key hashes to. */
    ghost predicate Indexed()
      reads this, shards
    {
      && shards.Length == SHARDS
      && forall i, k :: 0 <= i < SHARDS && k in shards[i] ==>
           hash(k) % SHARDS == i && shards[i][k].tenant == k.tenant && shards[i][k].id == k.chan
    }

    /** ... and its ring is its own and in order. */
    ghost predicate Valid()
      reads this, shards, All(), Rings()
    {
      && Indexed()
      && (forall c :: c in All() ==> c.Valid())
      && (forall c, d :: c in All() && d in All() && c != d ==> c.hist != d.hist)
    }

    ghost function Rings(): set<array<HistoryEntry>>
      reads this, shards
    {
      set c | c in All() :: c.hist
    }

    /** The unsharded map that the registry stands for. */
    function Find(k: Key): Option<Channel>
      requires shards.Length == SHARDS
      reads this, shards
    {
      var shard := shards[hash(k) % SHARDS];
      if k in shard then Some(shard[k]) else None
    }

    ghost function All(): set<Channel>
      reads this, shards
    {
      set i, k | 0 <= i < shards.Length && k in shards[i] :: shards[i][k]
    }

    /** The connections in a channel; a channel not in memory has none. */
    ghost function MembersOf(k: Key): map<Id, Member>
      requires shards.Length == SHARDS
      reads this, shards, All()
    {
      if Find(k).Some? then Find(k).value.members else map[]
    }

    /** Everything ever said in a channel; nothing, while it is not in memory. */
    ghost function LogOf(k: Key): seq<HistoryEntry>
      requires shards.Length == SHARDS
      reads this, shards, All()
    {
      if Find(k).Some? then Find(k).value.log else []
    }

    /** A channel found under another key is another channel. */
    lemma Others(ch: Channel, k: Key)
      requires Indexed() && Find(k).Some?
      ensures Find(k).value in All()
      ensures Find(k).value == ch ==> k == Key(ch.tenant, ch.id)
    {
    }

    /** AppendHistory on one channel of many: the others keep their logs and rings. */
    method Append(c: Channel, e: HistoryEntry)
      requires Valid() && c in All() && Find(Key(c.tenant, c.id)) == Some(c)
      modifies c`histPos, c`log, c.hist
      ensures Valid()
      ensures c.log == old(c.log) + [e]
      ensures forall k :: LogOf(k) == if k == Key(c.tenant, c.id) then old(LogOf(k)) + [e] else old(LogOf(k))
      ensures forall k :: MembersOf(k) == old(MembersOf(k))
    {
      c.AppendHistory(e);
      forall d | d in All() && d != c ensures d.Valid() && d.log == old(d.log) {
        assert d.hist != c.hist && old(d.Valid());
      }
      forall k ensures LogOf(k) == if k == Key(c.tenant, c.id) then old(LogOf(k)) + [e] else old(LogOf(k)) {
        if Find(k).Some? { Others(c, k); }
      }
    }

    /** The recent messages of a channel and its members, and then one more entry in its history. */
    method Post(c: Channel, e: HistoryEntry) returns (to: set<Id>, context: seq<HistoryEntry>)
      requires Valid() && c in All() && Find(Key(c.tenant, c.id)) == Some(c)
      modifies c`histPos, c`log, c.hist
      ensures Valid()
      ensures to == MembersOf(Key(c.tenant, c.id)).Keys
      ensures context == Recent(old(LogOf(Key(c.tenant, c.id))), DEPTH)
      ensures forall k :: LogOf(k) == if k == Key(c.tenant, c.id) then old(LogOf(k)) + [e] else old(LogOf(k))
      ensures forall k :: MembersOf(k) == old(MembersOf(k))
    {
      context := c.RecentMessages(DEPTH);
      to := c.members.Keys;
      Append(c, e);
    }

    /** AddMember on one channel of many. */
    method AddMemberTo(c: Channel, m: Member) returns (added: bool)
      requires Valid() && c in All() && Find(Key(c.tenant, c.id)) == Some(c)
      modifies c`members
      ensures Valid()
      ensures added <==> m.conn !in old(c.members)
      ensures forall k ::
        MembersOf(k) == if k == Key(c.tenant, c.id) then old(MembersOf(k))[m.conn := m] else old(MembersOf(k))
      ensures forall k :: LogOf(k) == old(LogOf(k))
    {
      added := c.AddMember(m);
      assert forall d :: d in All() ==> old(d.Valid());
      forall k ensures MembersOf(k) ==
        if k == Key(c.tenant, c.id) then old(MembersOf(k))[m.conn := m] else old(MembersOf(k))
      {
        if Find(k).Some? { Others(c, k); }
      }
    }

    /** RemoveMember on one channel of many. */
    method RemoveMemberFrom(c: Channel, conn: Id) returns (removed: bool)
      requires Valid() && c in All() && Find(Key(c.tenant, c.id)) == Some(c)
      modifies c`members
      ensures Valid()
      ensures removed <==> conn in old(c.members)
      ensures forall k ::
        MembersOf(k) == if k == Key(c.tenant, c.id) then old(MembersOf(k)) - {conn} else old(MembersOf(k))
      ensures forall k :: LogOf(k) == old(LogOf(k))
    {
      removed := c.RemoveMember(conn);
      assert forall d :: d in All() ==> old(d.Valid());
      forall k ensures MembersOf(k) ==
        if k == Key(c.tenant, c.id) then old(MembersOf(k)) - {conn} else old(MembersOf(k))
      {
        if Find(k).Some? { Others(c, k); }
      }
    }

    method Get(tenant: Id, chan: Id) returns (c: Option<Channel>)
      requires Valid()
      ensures c == Find(Key(tenant, chan))
      ensures c.Some? ==> c.value in All() && c.value.tenant == tenant && c.value.id == chan
    {
      c := Find(Key(tenant, chan));
    }

    method GetOrCreate(tenant: Id, chan: Id, name: string) returns (c: Channel)
      requires Valid()
      modifies shards
      ensures Valid() && Find(Key(tenant, chan)) == Some(c) && c in All()
      ensures c.tenant == tenant && c.id == chan
      ensures forall k :: MembersOf(k) == old(MembersOf(k)) && LogOf(k) == old(LogOf(k))
      ensures old(Find(Key(tenant, chan))) == if fresh(c) then None else Some(c)
      ensures fresh(c) ==> fresh(c.hist) && c.members == map[] && c.log == []
      ensures forall k :: k != Key(tenant, chan) ==> Find(k) == old(Find(k))
      ensures All() == old(All()) + {c}
    {
      var k := Key(tenant, chan);
      var i := hash(k) % SHARDS;
      if k in shards[i] {
        c := shards[i][k];
        return;
      }
      c := new Channel(tenant, chan, name);
      Register(k, c);
      forall d, e | d in All() && e in All() && d != e ensures d.hist != e.hist {}
    }

    /** A new channel in its shard. */
    method Register(k: Key, c: Channel)
      requires Indexed() && Find(k).None? && c.tenant == k.tenant && c.id == k.chan
      modifies shards
      ensures Indexed() && Find(k) == Some(c)
      ensures forall l :: l != k ==> Find(l) == old(Find(l))
      ensures All() == old(All()) + {c}
    {
      var i := hash(k) % SHARDS;
      shards[i] := shards[i][k := c];
      assert shards[i][k] == c;
      forall d | d in old(All()) ensures d in All() {
        var j, l :| 0 <= j < SHARDS && l in old(shards[j]) && old(shards[j])[l] == d;
        assert l in shards[j] && shards[j][l] == d;
      }
      forall d | d in All() && d != c ensures d in old(All()) {
        var j, l :| 0 <= j < SHARDS && l in shards[j] && shards[j][l] == d;
        assert l in old(shards[j]) && old(shards[j])[l] == d;
      }
    }

    ghost function InShard(i: nat): set<Channel>
      requires i < shards.Length
      reads shards
    {
      set k | k in shards[i] :: shards[i][k]
    }

    lemma HomeShard(i: nat, c: Channel)
      requires Valid() && i < SHARDS && c in InShard(i)
      ensures hash(Key(c.tenant, c.id)) % SHARDS == i
    {
      var k :| k in shards[i] && shards[i][k] == c;
      assert k == Key(c.tenant, c.id);
    }

    /** A channel is in the one shard that its own key hashes to. */
    lemma ShardsDisjoint(i: nat, j: nat)
      requires Valid() && i < SHARDS && j < SHARDS && i != j
      ensures InShard(i) !! InShard(j)
    {
      forall c | c in InShard(i) ensures c !in InShard(j) {
        HomeShard(i, c);
        if c in InShard(j) { HomeShard(j, c); }
      }
    }

    /** Called when a connection closes: every shard, every channel. */
    method RemoveMemberFromAll(conn: Id)
      requires Valid()
      modifies All()`members
      ensures Valid()
      ensures forall k :: MembersOf(k) == old(MembersOf(k)) - {conn} && LogOf(k) == old(LogOf(k))
      ensures forall c :: c in All() ==> c.members == old(c.members) - {conn}
    {
      var i := 0;
      while i < SHARDS
        invariant 0 <= i <= SHARDS
        invariant forall j, c :: 0 <= j < SHARDS && c in InShard(j) ==>
          c.members == if j < i then old(c.members) - {conn} else old(c.members)
      {
        forall c | c in InShard(i) ensures c in All() {}
        forall j | 0 <= j < SHARDS && j != i ensures InShard(j) !! InShard(i) { ShardsDisjoint(j, i); }
        RemoveFromShard(i, conn);
        i := i + 1;
      }
      forall c | c in All() ensures c.members == old(c.members) - {conn} {
        var j, k :| 0 <= j < SHARDS && k in shards[j] && shards[j][k] == c;
        assert c in InShard(j);
      }
    }

    method RemoveFromShard(i: nat, conn: Id)
      requires Valid() && i < SHARDS
      modifies InShard(i)`members
      ensures forall c :: c in InShard(i) ==> c.members == old(c.members) - {conn}
    {
      var chs := set k | k in shards[i] :: shards[i][k];
      var todo := chs;
      while todo != {}
        invariant todo <= chs
        invariant forall c :: c in chs ==> c.members == if c in todo then old(c.members) else old(c.members) - {conn}
        decreases todo
      {
        var c :| c in todo;
        todo := todo - {c};
        var _ := c.RemoveMember(conn);
      }
    }
  }

  /** A closed connection is in no channel. */
  lemma RemovedEverywhere(r: Registry, conn: Id, k: Key)
    requires r.Valid()
    requires forall c :: c in r.All() ==> conn !in c.members
    ensures conn !in r.MembersOf(k)
  {
    if r.Find(k).Some? { assert r.Find(k).value in r.All(); }
  }
}
