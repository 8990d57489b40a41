/**
 The reply to a members request (internal/server/members.go): live connections and webhook-only
 accounts of one channel, one row per account. The rows come out of maps, whose iteration order is
 arbitrary.

 Account ids compare as their canonical text does, which is as numbers.
 */
module Members {
  import opened Base
  import opened Channels

  datatype Account = Account(displayName: string, isBot: bool)

  datatype MemberInfo = MemberInfo(
    account: Id, displayName: string, isBot: bool, isGhost: bool, connCount: nat, paused: bool)

  /**
   What the handler reads: the channel's members, the account of each active subscription on it, the
   accounts of the tenant, and the bots paused there.
   */
  datatype View = View(members: map<Id, Member>, subs: seq<Id>, accounts: map<Id, Account>, paused: set<Id>)

  function ConnsOf(v: View, a: Id): set<Id> {
    set c | c in v.members && v.members[c].account == a
  }

  predicate Live(v: View, a: Id) { ConnsOf(v, a) != {} }

  predicate Ghost(v: View, a: Id) { a in v.subs && !Live(v, a) && a in v.accounts }

  predicate IsBot(v: View, a: Id) { a in v.accounts && v.accounts[a].isBot }

  /** The name of a live row: a connection's, or the account's when that is empty. */
  function Named(v: View, a: Id, connName: string): string {
    if connName == "" && a in v.accounts then v.accounts[a].displayName else connName
  }

  /** r is what the view says about its account. */
  ghost predicate RowOk(v: View, r: MemberInfo) {
    && (if r.isGhost then Ghost(v, r.account) && r.displayName == v.accounts[r.account].displayName
        else exists c :: c in ConnsOf(v, r.account) && r.displayName == Named(v, r.account, v.members[c].displayName))
    && r.isBot == IsBot(v, r.account)
    && r.connCount == |ConnsOf(v, r.account)|
    && r.paused == (r.isBot && r.account in v.paused)
  }

  predicate OneRowEach(s: seq<MemberInfo>) {
    forall i, j :: 0 <= i < j < |s| ==> s[i].account != s[j].account
  }

  predicate HasRow(s: seq<MemberInfo>, a: Id) {
    exists r :: r in s && r.account == a
  }

  /** Every row is right and no account has two. */
  ghost predicate Rows(v: View, s: seq<MemberInfo>) {
    OneRowEach(s) && forall r :: r in s ==> RowOk(v, r)
  }

  ghost predicate Roster(v: View, s: seq<MemberInfo>) {
    && Rows(v, s)
    && (forall a :: Live(v, a) || Ghost(v, a) ==> HasRow(s, a))
    && InOrder(s)
  }

  // Order

  /** The less function of sortMembers. */
  predicate Before(x: MemberInfo, y: MemberInfo) {
    if x.isGhost != y.isGhost then !x.isGhost
    else if x.displayName != y.displayName then Less(x.displayName, y.displayName)
    else x.account < y.account
  }

  ghost predicate InOrder(s: seq<MemberInfo>) {
    forall i, j :: 0 <= i < j < |s| ==> Before(s[i], s[j])
  }

  lemma BeforeTransitive(x: MemberInfo, y: MemberInfo, z: MemberInfo)
    requires Before(x, y) && Before(y, z)
    ensures Before(x, z)
  {
    var a, b, c := x.displayName, y.displayName, z.displayName;
    LessTotal(a, b);
    LessTotal(b, c);
    LessTotal(a, c);
    if Less(a, b) && Less(b, c) { LessTransitive(a, b, c); }
  }

  lemma BeforeTotal(x: MemberInfo, y: MemberInfo)
    ensures Before(x, y) ==> !Before(y, x)
    ensures x.account != y.account ==> Before(x, y) || Before(y, x)
  {
    LessTotal(x.displayName, y.displayName);
  }

  /** The less function does not tell them apart. */
  predicate SameKey(x: MemberInfo, y: MemberInfo) {
    x.isGhost == y.isGhost && x.displayName == y.displayName && x.account == y.account
  }

  lemma KeysCompare(x: MemberInfo, y: MemberInfo)
    ensures Before(x, y) || Before(y, x) || SameKey(x, y)
    ensures SameKey(x, y) ==> !Before(x, y)
    ensures Before(x, y) ==> !Before(y, x)
  {
    LessTotal(x.displayName, y.displayName);
  }

  lemma NotAfterTransitive(x: MemberInfo, y: MemberInfo, z: MemberInfo)
    requires !Before(y, x) && !Before(z, y)
    ensures !Before(z, x)
  {
    KeysCompare(x, y);
    KeysCompare(y, z);
    KeysCompare(x, z);
    if Before(x, y) && Before(y, z) { BeforeTransitive(x, y, z); }
  }

  ghost predicate NonDescending(s: seq<MemberInfo>) {
    forall i, j :: 0 <= i < j < |s| ==> !Before(s[j], s[i])
  }

  /** The rows that compare equal to x, in their order. */
  function Ties(s: seq<MemberInfo>, x: MemberInfo): seq<MemberInfo> {
    if s == [] then []
    else Ties(s[..|s| - 1], x) + if SameKey(s[|s| - 1], x) then [s[|s| - 1]] else []
  }

  lemma TiesSnoc(s: seq<MemberInfo>, y: MemberInfo, x: MemberInfo)
    ensures Ties(s + [y], x) == Ties(s, x) + if SameKey(y, x) then [y] else []
  {
    assert (s + [y])[..|s|] == s;
  }

  /** What sorting promises of the rows so far. */
  ghost predicate SortedAs(sorted: seq<MemberInfo>, infos: seq<MemberInfo>) {
    && NonDescending(sorted) && multiset(sorted) == multiset(infos)
    && forall x :: Ties(sorted, x) == Ties(infos, x)
  }

  /** sortMembers, by insertion: a stable sort. */
  method SortMembers(infos: seq<MemberInfo>) returns (sorted: seq<MemberInfo>)
    ensures NonDescending(sorted) && multiset(sorted) == multiset(infos)
    ensures forall x :: Ties(sorted, x) == Ties(infos, x)
    ensures OneRowEach(infos) ==> InOrder(sorted) && OneRowEach(sorted)
  {
    sorted := [];
    for i := 0 to |infos|
      invariant SortedAs(sorted, infos[..i])
    {
      InsertNext(sorted, infos[..i], infos[i]);
      assert infos[..i + 1] == infos[..i] + [infos[i]];
      sorted := Insert(sorted, infos[i]);
    }
    assert infos[..|infos|] == infos;
    if OneRowEach(infos) { StrictlyInOrder(infos, sorted); }
  }

  lemma InsertNext(sorted: seq<MemberInfo>, infos: seq<MemberInfo>, y: MemberInfo)
    requires SortedAs(sorted, infos)
    ensures SortedAs(Insert(sorted, y), infos + [y])
  {
    InsertStable(sorted, y);
    InsertPermutes(sorted, y);
    forall x ensures Ties(Insert(sorted, y), x) == Ties(infos + [y], x) {
      InsertTies(sorted, y, x);
      TiesSnoc(infos, y, x);
    }
  }

  /** Without two rows of one account the order is strict. */
  lemma StrictlyInOrder(infos: seq<MemberInfo>, sorted: seq<MemberInfo>)
    requires OneRowEach(infos) && NonDescending(sorted) && multiset(sorted) == multiset(infos)
    ensures InOrder(sorted) && OneRowEach(sorted)
  {
    forall i, j | 0 <= i < j < |sorted| ensures Before(sorted[i], sorted[j]) && sorted[i].account != sorted[j].account {
      RowsApart(infos, sorted, i, j);
      KeysCompare(sorted[i], sorted[j]);
    }
  }

  lemma {:induction false} OnceEach(infos: seq<MemberInfo>, x: MemberInfo)
    requires OneRowEach(infos)
    ensures multiset(infos)[x] <= 1
  {
    if infos != [] {
      var n := |infos| - 1;
      OnceEach(infos[..n], x);
      assert infos == infos[..n] + [infos[n]];
      assert infos[n] !in infos[..n] by {
        forall k | 0 <= k < n ensures infos[..n][k] != infos[n] {}
      }
    }
  }

  lemma {:induction false} Twice(s: seq<MemberInfo>, i: nat, j: nat)
    requires i < j < |s| && s[i] == s[j]
    ensures multiset(s)[s[i]] >= 2
  {
    assert s == s[..j] + [s[j]] + s[j + 1..];
    assert s[..j][i] == s[i];
    assert multiset(s[..j])[s[i]] >= 1 by { assert s[i] in s[..j]; }
  }

  lemma RowsApart(infos: seq<MemberInfo>, sorted: seq<MemberInfo>, i: nat, j: nat)
    requires OneRowEach(infos) && multiset(sorted) == multiset(infos) && i < j < |sorted|
    ensures sorted[i].account != sorted[j].account
  {
    var x, y := sorted[i], sorted[j];
    OnceEach(infos, x);
    assert x != y by { if x == y { Twice(sorted, i, j); } }
    assert x in multiset(infos) && y in multiset(infos);
    var k :| 0 <= k < |infos| && infos[k] == x;
    var l :| 0 <= l < |infos| && infos[l] == y;
  }

  lemma {:induction false} InsertPermutes(s: seq<MemberInfo>, x: MemberInfo)
    ensures multiset(Insert(s, x)) == multiset(s) + multiset{x}
  {
    if s != [] {
      InsertPermutes(s[..|s| - 1], x);
      assert s == s[..|s| - 1] + [s[|s| - 1]];
    }
  }

  lemma {:induction false} InsertStable(s: seq<MemberInfo>, x: MemberInfo)
    requires NonDescending(s)
    ensures NonDescending(Insert(s, x))
  {
    if s != [] {
      var n := |s| - 1;
      if Before(x, s[n]) {
        InsertStable(s[..n], x);
        forall r | r in Insert(s[..n], x) ensures !Before(s[n], r) { InsertedNotAfter(s, x, r); }
        SnocNonDescending(Insert(s[..n], x), s[n]);
      } else {
        forall r | r in s ensures !Before(x, r) {
          var i :| 0 <= i < |s| && s[i] == r;
          if i < n { NotAfterTransitive(s[i], s[n], x); }
        }
        SnocNonDescending(s, x);
      }
    }
  }

  lemma SnocNonDescending(s: seq<MemberInfo>, x: MemberInfo)
    requires NonDescending(s) && forall r :: r in s ==> !Before(x, r)
    ensures NonDescending(s + [x])
  {
  }

  lemma InsertedNotAfter(s: seq<MemberInfo>, x: MemberInfo, r: MemberInfo)
    requires s != [] && NonDescending(s) && Before(x, s[|s| - 1]) && r in Insert(s[..|s| - 1], x)
    ensures !Before(s[|s| - 1], r)
  {
    var n := |s| - 1;
    InsertHas(s[..n], x, r);
    KeysCompare(x, s[n]);
    if r in s[..n] {
      var k :| 0 <= k < n && s[..n][k] == r;
      assert s[k] == r;
    }
  }

  /** x goes behind the rows that compare equal to it. */
  lemma {:induction false} InsertTies(s: seq<MemberInfo>, x: MemberInfo, y: MemberInfo)
    ensures Ties(Insert(s, x), y) == Ties(s, y) + if SameKey(x, y) then [x] else []
  {
    if s != [] && Before(x, s[|s| - 1]) {
      var n := |s| - 1;
      InsertTies(s[..n], x, y);
      TiesSnoc(Insert(s[..n], x), s[n], y);
      KeysCompare(x, s[n]);
    } else {
      TiesSnoc(s, x, y);
    }
  }

  lemma OrderedApart(infos: seq<MemberInfo>, sorted: seq<MemberInfo>, i: nat, j: nat)
    requires OneRowEach(infos) && InOrder(sorted) && i < j < |sorted|
    requires forall r :: r in sorted <==> r in infos
    ensures sorted[i].account != sorted[j].account
  {
    assert sorted[i] in infos && sorted[j] in infos;
    var k :| 0 <= k < |infos| && infos[k] == sorted[i];
    var l :| 0 <= l < |infos| && infos[l] == sorted[j];
    assert Before(sorted[i], sorted[j]);
    BeforeTotal(sorted[i], sorted[j]);
  }

  /** x in its place among rows already in order, found from the back. */
  function Insert(s: seq<MemberInfo>, x: MemberInfo): seq<MemberInfo> {
    if s != [] && Before(x, s[|s| - 1]) then Insert(s[..|s| - 1], x) + [s[|s| - 1]] else s + [x]
  }

  lemma {:induction false} InsertHas(s: seq<MemberInfo>, x: MemberInfo, r: MemberInfo)
    ensures r in Insert(s, x) <==> r in s || r == x
  {
    if s != [] {
      InsertHas(s[..|s| - 1], x, r);
      assert s == s[..|s| - 1] + [s[|s| - 1]];
    }
  }

  lemma {:induction false} InsertInOrder(s: seq<MemberInfo>, x: MemberInfo)
    requires InOrder(s) && forall r :: r in s ==> r.account != x.account
    ensures InOrder(Insert(s, x))
  {
    if s != [] {
      var n := |s| - 1;
      if Before(x, s[n]) {
        var front := Insert(s[..n], x);
        InsertInOrder(s[..n], x);
        forall i | 0 <= i < |front| ensures Before(front[i], s[n]) {
          InsertHas(s[..n], x, front[i]);
        }
      } else {
        BeforeTotal(x, s[n]);
        forall i | 0 <= i < n ensures Before(s[i], x) { BeforeTransitive(s[i], s[n], x); }
      }
    }
  }

  // The handler

  datatype Aggregate = Aggregate(displayName: string, count: nat)

  /** What live says of an account once every connection but those in todo is counted. */
  ghost predicate CountedAt(v: View, todo: set<Id>, live: map<Id, Aggregate>, a: Id) {
    var done := ConnsOf(v, a) - todo;
    if a in live then
      && done != {} && live[a].count == |done|
      && exists c :: c in ConnsOf(v, a) && v.members[c].displayName == live[a].displayName
    else done == {}
  }

  ghost predicate Counted(v: View, todo: set<Id>, live: map<Id, Aggregate>) {
    forall a :: CountedAt(v, todo, live, a)
  }

  method CountLive(v: View) returns (live: map<Id, Aggregate>)
    ensures Counted(v, {}, live)
  {
    live := map[];
    var todo := v.members.Keys;
    forall a ensures CountedAt(v, todo, live, a) { assert ConnsOf(v, a) - todo == {}; }
    while todo != {}
      invariant todo <= v.members.Keys
      invariant Counted(v, todo, live)
      decreases todo
    {
      var c :| c in todo;
      var m := v.members[c];
      CountOne(v, todo, c, live);
      var was := if m.account in live then live[m.account] else Aggregate(m.displayName, 0);
      live := live[m.account := was.(count := was.count + 1)];
      todo := todo - {c};
    }
  }

  /** One more connection is counted; it names its account's row unless that has a name already. */
  lemma CountOne(v: View, todo: set<Id>, c: Id, live: map<Id, Aggregate>)
    requires c in todo && todo <= v.members.Keys && Counted(v, todo, live)
    ensures var m := v.members[c];
      var was := if m.account in live then live[m.account] else Aggregate(m.displayName, 0);
      Counted(v, todo - {c}, live[m.account := was.(count := was.count + 1)])
  {
    var m := v.members[c];
    var was := if m.account in live then live[m.account] else Aggregate(m.displayName, 0);
    var live' := live[m.account := was.(count := was.count + 1)];
    forall a ensures CountedAt(v, todo - {c}, live', a) {
      assert CountedAt(v, todo, live, a);
      var done := ConnsOf(v, a) - todo;
      if a == m.account {
        assert c in ConnsOf(v, a) && ConnsOf(v, a) - (todo - {c}) == done + {c};
      } else {
        assert ConnsOf(v, a) - (todo - {c}) == done;
      }
    }
  }

  lemma LiveKeys(v: View, live: map<Id, Aggregate>, a: Id)
    requires Counted(v, {}, live)
    ensures a in live <==> Live(v, a)
  {
    assert CountedAt(v, {}, live, a);
    assert ConnsOf(v, a) - {} == ConnsOf(v, a);
  }

  method Ghosts(v: View, live: map<Id, Aggregate>) returns (ghosts: set<Id>)
    requires Counted(v, {}, live)
    ensures forall a :: a in ghosts <==> a in v.subs && !Live(v, a)
  {
    ghosts := {};
    for i := 0 to |v.subs|
      invariant forall a :: a in ghosts <==> a in v.subs[..i] && a !in live
    {
      if v.subs[i] !in live {
        ghosts := ghosts + {v.subs[i]};
      }
    }
    assert v.subs[..|v.subs|] == v.subs;
    forall a ensures a in live <==> Live(v, a) { LiveKeys(v, live, a); }
  }

  /** Correct rows, for exactly these accounts. */
  ghost predicate RowsFor(v: View, s: seq<MemberInfo>, who: set<Id>) {
    Rows(v, s) && forall a :: HasRow(s, a) <==> a in who
  }

  lemma Appended(v: View, s: seq<MemberInfo>, r: MemberInfo, who: set<Id>)
    requires RowsFor(v, s, who) && RowOk(v, r) && r.account !in who
    ensures RowsFor(v, s + [r], who + {r.account})
  {
    forall i | 0 <= i < |s| ensures s[i].account != r.account { assert s[i] in s && HasRow(s, s[i].account); }
    forall a ensures HasRow(s + [r], a) <==> a in who + {r.account} { RowAdded(s, r, a); }
  }

  lemma RowAdded(s: seq<MemberInfo>, r: MemberInfo, a: Id)
    ensures HasRow(s + [r], a) <==> HasRow(s, a) || a == r.account
  {
    assert r in s + [r];
    if HasRow(s, a) {
      var q :| q in s && q.account == a;
      assert q in s + [r];
    }
  }

  lemma LiveRowOk(v: View, live: map<Id, Aggregate>, r: MemberInfo)
    requires Counted(v, {}, live) && r.account in live
    requires var a := r.account;
      r == MemberInfo(a, Named(v, a, live[a].displayName), IsBot(v, a), false, live[a].count, IsBot(v, a) && a in v.paused)
    ensures RowOk(v, r)
  {
    assert CountedAt(v, {}, live, r.account);
    assert ConnsOf(v, r.account) - {} == ConnsOf(v, r.account);
  }

  method LiveRows(v: View, live: map<Id, Aggregate>) returns (infos: seq<MemberInfo>)
    requires Counted(v, {}, live)
    ensures RowsFor(v, infos, live.Keys)
  {
    infos := [];
    var todo := live.Keys;
    while todo != {}
      invariant todo <= live.Keys && RowsFor(v, infos, live.Keys - todo)
      decreases todo
    {
      var a :| a in todo;
      var bot, name := false, live[a].displayName;
      if a in v.accounts {
        bot := v.accounts[a].isBot;
        if name == "" {
          name := v.accounts[a].displayName;
        }
      }
      var r := MemberInfo(a, name, bot, false, live[a].count, bot && a in v.paused);
      LiveRowOk(v, live, r);
      Appended(v, infos, r, live.Keys - todo);
      assert live.Keys - (todo - {a}) == (live.Keys - todo) + {a};
      infos := infos + [r];
      todo := todo - {a};
    }
    assert live.Keys - {} == live.Keys;
  }

  method GhostRows(v: View, ghosts: set<Id>, live: seq<MemberInfo>, ghost who: set<Id>) returns (infos: seq<MemberInfo>)
    requires forall a :: a in ghosts <==> a in v.subs && !Live(v, a)
    requires RowsFor(v, live, who) && who !! ghosts
    ensures RowsFor(v, infos, who + ghosts * v.accounts.Keys)
  {
    infos := live;
    var todo := ghosts;
    assert who == who + (ghosts - todo) * v.accounts.Keys;
    while todo != {}
      invariant todo <= ghosts && RowsFor(v, infos, who + (ghosts - todo) * v.accounts.Keys)
      decreases todo
    {
      var a :| a in todo;
      ghost var had := who + (ghosts - todo) * v.accounts.Keys;
      if a in v.accounts {
        var acc := v.accounts[a];
        var r := MemberInfo(a, acc.displayName, acc.isBot, true, 0, acc.isBot && a in v.paused);
        GhostRowOk(v, r);
        Appended(v, infos, r, had);
        infos := infos + [r];
      }
      assert who + (ghosts - (todo - {a})) * v.accounts.Keys == had + ({a} * v.accounts.Keys);
      assert a in v.accounts ==> {a} * v.accounts.Keys == {a};
      assert a !in v.accounts ==> had + {a} * v.accounts.Keys == had;
      todo := todo - {a};
    }
    assert ghosts - {} == ghosts;
  }

  lemma GhostRowOk(v: View, r: MemberInfo)
    requires Ghost(v, r.account)
    requires var acc := v.accounts[r.account];
      r == MemberInfo(r.account, acc.displayName, acc.isBot, true, 0, acc.isBot && r.account in v.paused)
    ensures RowOk(v, r)
  {
  }

  /** handleMembers, for a caller who may see the channel. */
  method HandleMembers(v: View) returns (infos: seq<MemberInfo>)
    ensures Roster(v, infos)
  {
    var live := CountLive(v);
    var ghosts := Ghosts(v, live);
    var rows := LiveRows(v, live);
    forall a ensures a in live <==> Live(v, a) { LiveKeys(v, live, a); }
    rows := GhostRows(v, ghosts, rows, live.Keys);
    infos := SortMembers(rows);
    forall r ensures r in infos <==> r in rows { assert r in multiset(infos) <==> r in multiset(rows); }
    forall a | Live(v, a) || Ghost(v, a) ensures HasRow(infos, a) {
      assert HasRow(rows, a);
      var r :| r in rows && r.account == a;
      assert r in infos;
    }
  }

  // What a roster means

  /**
   There is a row exactly for the accounts with a connection here and the known ones that only have a
   subscription, marked as what it is.
   */
  lemma {:induction false} RosterRows(v: View, s: seq<MemberInfo>, a: Id)
    requires Roster(v, s)
    ensures HasRow(s, a) <==> Live(v, a) || Ghost(v, a)
    ensures Live(v, a) <==> exists c :: c in v.members && v.members[c].account == a
    ensures Ghost(v, a) <==> a in v.subs && a in v.accounts && !exists c :: c in v.members && v.members[c].account == a
    ensures forall r :: r in s && r.account == a ==> (r.isGhost <==> Ghost(v, a)) && (!r.isGhost <==> Live(v, a))
  {
    forall r | r in s && r.account == a ensures (r.isGhost <==> Ghost(v, a)) && (!r.isGhost <==> Live(v, a)) {
      assert RowOk(v, r);
    }
    if c :| c in v.members && v.members[c].account == a {
      assert c in ConnsOf(v, a);
    }
  }

  /**
   What a row shows. A live one has the name that one of the account's connections goes by, or the
   account's if that is empty; the flags are the account's.
   */
  lemma RowShows(v: View, s: seq<MemberInfo>, r: MemberInfo)
    requires Roster(v, s) && r in s
    ensures r.connCount == |set c | c in v.members && v.members[c].account == r.account|
    ensures r.isBot <==> r.account in v.accounts && v.accounts[r.account].isBot
    ensures r.paused <==> r.isBot && r.account in v.paused
    ensures r.isGhost ==> r.displayName == v.accounts[r.account].displayName && r.connCount == 0
    ensures !r.isGhost ==> exists c ::
      && c in v.members && v.members[c].account == r.account
      && r.displayName ==
         if v.members[c].displayName == "" && r.account in v.accounts then v.accounts[r.account].displayName
         else v.members[c].displayName
  {
    assert RowOk(v, r);
    assert ConnsOf(v, r.account) == set c | c in v.members && v.members[c].account == r.account;
  }

  /** Live rows come first; among live rows, and among the others, the names ascend, and ids where names are equal. */
  lemma RosterAscends(v: View, s: seq<MemberInfo>, i: nat, j: nat)
    requires Roster(v, s) && i < j < |s|
    ensures s[i].isGhost ==> s[j].isGhost
    ensures s[i].isGhost == s[j].isGhost ==>
              || Less(s[i].displayName, s[j].displayName)
              || (s[i].displayName == s[j].displayName && s[i].account < s[j].account)
  {
    assert Before(s[i], s[j]);
  }

  function ConnTotal(s: seq<MemberInfo>): nat {
    if s == [] then 0 else s[|s| - 1].connCount + ConnTotal(s[..|s| - 1])
  }

  ghost function Covered(v: View, s: seq<MemberInfo>): set<Id> {
    set c | c in v.members && HasRow(s, v.members[c].account)
  }

  /** The last of some correct rows is for an account that the others are not for. */
  lemma LastRow(v: View, t: seq<MemberInfo>, r: MemberInfo)
    requires Rows(v, t + [r])
    ensures Rows(v, t) && RowOk(v, r) && !HasRow(t, r.account)
  {
    var s := t + [r];
    assert r in s;
    forall q | q in t ensures RowOk(v, q) && q.account != r.account {
      var i :| 0 <= i < |t| && t[i] == q;
      assert s[i] == q && s[|t|] == r;
    }
    forall i, j | 0 <= i < j < |t| ensures t[i].account != t[j].account {
      assert s[i] == t[i] && s[j] == t[j];
    }
  }

  lemma CoveredAdds(v: View, t: seq<MemberInfo>, r: MemberInfo)
    requires !HasRow(t, r.account)
    ensures |Covered(v, t + [r])| == |Covered(v, t)| + |ConnsOf(v, r.account)|
  {
    forall c | c in v.members
      ensures c in Covered(v, t + [r]) <==> c in Covered(v, t) || c in ConnsOf(v, r.account)
    {
      RowAdded(t, r, v.members[c].account);
    }
    assert Covered(v, t + [r]) == Covered(v, t) + ConnsOf(v, r.account);
    assert Covered(v, t) !! ConnsOf(v, r.account);
  }

  lemma {:induction false} CoveredCount(v: View, s: seq<MemberInfo>)
    requires Rows(v, s)
    ensures ConnTotal(s) == |Covered(v, s)|
  {
    if s == [] {
      assert Covered(v, s) == {};
    } else {
      var t, r := s[..|s| - 1], s[|s| - 1];
      assert s == t + [r];
      LastRow(v, t, r);
      CoveredCount(v, t);
      CoveredAdds(v, t, r);
    }
  }

  /** The connection counts of a roster add up to the number of members of the channel. */
  lemma CountsAddUp(v: View, s: seq<MemberInfo>)
    requires Roster(v, s)
    ensures ConnTotal(s) == |v.members|
  {
    CoveredCount(v, s);
    forall c | c in v.members ensures HasRow(s, v.members[c].account) {
      assert c in ConnsOf(v, v.members[c].account);
    }
    assert Covered(v, s) == v.members.Keys;
  }

  /** All connections of an account give its row the same name. */
  ghost predicate NamesAgree(v: View) {
    forall c, d :: c in v.members && d in v.members && v.members[c].account == v.members[d].account ==>
      Named(v, v.members[c].account, v.members[c].displayName) == Named(v, v.members[d].account, v.members[d].displayName)
  }

  lemma SameRow(v: View, q: MemberInfo, r: MemberInfo)
    requires NamesAgree(v) && RowOk(v, q) && RowOk(v, r) && q.account == r.account
    ensures q == r
  {
  }

  lemma SameRows(v: View, s: seq<MemberInfo>, t: seq<MemberInfo>)
    requires NamesAgree(v) && Roster(v, s) && Roster(v, t)
    ensures forall r :: r in s ==> r in t
  {
    forall r | r in s ensures r in t {
      RosterRows(v, s, r.account);
      RosterRows(v, t, r.account);
      assert HasRow(s, r.account);
      var q :| q in t && q.account == r.account;
      SameRow(v, q, r);
    }
  }

  /** Strictly ordered sequences of the same rows are the same sequence. */
  lemma {:induction false} OrderDetermines(s: seq<MemberInfo>, t: seq<MemberInfo>)
    requires InOrder(s) && InOrder(t) && forall r :: r in s <==> r in t
    ensures s == t
  {
    BothEmpty(s, t);
    if s != [] {
      assert s[0] in t && t[0] in s;
      FirstAgrees(s, t);
      forall r ensures r in s[1..] <==> r in t[1..] {
        Tail(s, r);
        Tail(t, r);
      }
      OrderDetermines(s[1..], t[1..]);
      assert s == [s[0]] + s[1..] && t == [t[0]] + t[1..];
    }
  }

  lemma BothEmpty(s: seq<MemberInfo>, t: seq<MemberInfo>)
    requires forall r :: r in s <==> r in t
    ensures s == [] <==> t == []
  {
    if s != [] { assert s[0] in t; }
    if t != [] { assert t[0] in s; }
  }

  lemma FirstAgrees(s: seq<MemberInfo>, t: seq<MemberInfo>)
    requires InOrder(s) && InOrder(t) && s != [] && t != [] && s[0] in t && t[0] in s
    ensures s[0] == t[0]
  {
    if s[0] != t[0] {
      var i :| 0 <= i < |t| && t[i] == s[0];
      var j :| 0 <= j < |s| && s[j] == t[0];
      assert Before(t[0], t[i]) && Before(s[0], s[j]);
      BeforeTotal(s[0], t[0]);
      assert false;
    }
  }

  lemma Tail(s: seq<MemberInfo>, r: MemberInfo)
    requires InOrder(s) && s != []
    ensures r in s[1..] <==> r in s && r != s[0]
  {
    assert s == [s[0]] + s[1..];
  }

  lemma RosterUnique(v: View, s: seq<MemberInfo>, t: seq<MemberInfo>)
    requires NamesAgree(v) && Roster(v, s) && Roster(v, t)
    ensures s == t
  {
    SameRows(v, s, t);
    SameRows(v, t, s);
    OrderDetermines(s, t);
  }

  /** The row of an account, named by connection c if it is live. */
  function RowBy(v: View, a: Id, c: Id): MemberInfo {
    var name := if Live(v, a) && c in v.members then Named(v, a, v.members[c].displayName)
                else if a in v.accounts then v.accounts[a].displayName else "";
    MemberInfo(a, name, IsBot(v, a), !Live(v, a), |ConnsOf(v, a)|, IsBot(v, a) && a in v.paused)
  }

  /** c can name the row of a. */
  ghost predicate Names(v: View, a: Id, c: Id) {
    if Live(v, a) then c in ConnsOf(v, a) else Ghost(v, a)
  }

  lemma RowByOk(v: View, a: Id, c: Id)
    requires Names(v, a, c)
    ensures RowOk(v, RowBy(v, a, c))
  {
  }

  lemma InsertRow(v: View, s: seq<MemberInfo>, r: MemberInfo, who: set<Id>)
    requires InOrder(s) && RowsFor(v, s, who) && RowOk(v, r) && r.account !in who
    ensures InOrder(Insert(s, r)) && RowsFor(v, Insert(s, r), who + {r.account})
    ensures forall q :: q in Insert(s, r) <==> q in s || q == r
  {
    Appended(v, s, r, who);
    forall q | q in s ensures q.account != r.account { assert HasRow(s, q.account); }
    InsertInOrder(s, r);
    forall q ensures q in Insert(s, r) <==> q in s || q == r { InsertHas(s, r, q); }
    SameRowsFor(v, s + [r], Insert(s, r), who + {r.account});
  }

  /** Some map order puts any chosen connection first, so each choice of names has its roster. */
  lemma {:induction false} RosterBy(v: View, who: set<Id>, first: map<Id, Id>) returns (s: seq<MemberInfo>)
    requires forall a :: a in who ==> a in first && Names(v, a, first[a])
    ensures InOrder(s) && RowsFor(v, s, who)
    ensures forall a :: a in who ==> RowBy(v, a, first[a]) in s
    decreases who
  {
    if who == {} {
      return [];
    }
    var a :| a in who;
    var t := RosterBy(v, who - {a}, first);
    var r := RowBy(v, a, first[a]);
    RowByOk(v, a, first[a]);
    InsertRow(v, t, r, who - {a});
    assert (who - {a}) + {a} == who;
    s := Insert(t, r);
  }

  lemma SameRowsFor(v: View, s: seq<MemberInfo>, t: seq<MemberInfo>, who: set<Id>)
    requires RowsFor(v, s, who) && InOrder(t) && forall r :: r in s <==> r in t
    ensures RowsFor(v, t, who)
  {
    forall i, j | 0 <= i < j < |t| ensures t[i].account != t[j].account { OrderedApart(s, t, i, j); }
    forall a ensures HasRow(t, a) <==> HasRow(s, a) {
      if r :| r in s && r.account == a { assert r in t; }
      if r :| r in t && r.account == a { assert r in s; }
    }
  }

  function Shown(v: View): set<Id> {
    (set c | c in v.members :: v.members[c].account) + (set a | a in v.subs && a in v.accounts)
  }

  lemma ShownRows(v: View, a: Id)
    ensures a in Shown(v) <==> Live(v, a) || Ghost(v, a)
  {
    if Live(v, a) {
      var c :| c in ConnsOf(v, a);
    }
    forall c | c in v.members ensures c in ConnsOf(v, v.members[c].account) {}
  }

  /** A roster in which connection c names its account's row. */
  lemma RosterNamedBy(v: View, c: Id) returns (s: seq<MemberInfo>)
    requires c in v.members
    ensures Roster(v, s) && RowBy(v, v.members[c].account, c) in s
  {
    forall a ensures a in Shown(v) <==> Live(v, a) || Ghost(v, a) { ShownRows(v, a); }
    assert c in ConnsOf(v, v.members[c].account);
    var first := map a | a in Shown(v) ::
      if a == v.members[c].account then c else if Live(v, a) then (var d :| d in ConnsOf(v, a); d) else 0;
    s := RosterBy(v, Shown(v), first);
  }

  /**
   The reply does not depend on the order in which the maps are walked if and only if all
   connections of an account give its row the same name.
   */
  lemma RosterUniqueIff(v: View)
    ensures (forall s, t :: Roster(v, s) && Roster(v, t) ==> s == t) <==> NamesAgree(v)
  {
    if NamesAgree(v) {
      forall s, t | Roster(v, s) && Roster(v, t) ensures s == t { RosterUnique(v, s, t); }
    } else {
      var c, d :| c in v.members && d in v.members && v.members[c].account == v.members[d].account
        && Named(v, v.members[c].account, v.members[c].displayName) != Named(v, v.members[d].account, v.members[d].displayName);
      var s := RosterNamedBy(v, c);
      var t := RosterNamedBy(v, d);
      assert s != t by { NamesDiffer(v, c, d, s); }
    }
  }

  lemma NamesDiffer(v: View, c: Id, d: Id, s: seq<MemberInfo>)
    requires Roster(v, s) && c in v.members && d in v.members && v.members[c].account == v.members[d].account
    requires Named(v, v.members[c].account, v.members[c].displayName) != Named(v, v.members[d].account, v.members[d].displayName)
    requires c in ConnsOf(v, v.members[c].account) && d in ConnsOf(v, v.members[c].account)
    requires RowBy(v, v.members[c].account, c) in s
    ensures RowBy(v, v.members[d].account, d) !in s
  {
    var q, r := RowBy(v, v.members[c].account, c), RowBy(v, v.members[d].account, d);
    var i :| 0 <= i < |s| && s[i] == q;
    forall j | 0 <= j < |s| ensures s[j] != r {}
  }
}
