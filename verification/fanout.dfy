/**
 The realtime fan-out as a step machine over any number of connections, tenants and channels
 (internal/server/conn.go, dispatch and its handlers; internal/server/publish.go).

 A step is one handler run to its end. A step that is not enabled leaves the state alone, as does a
 message, notice or event too large to encode.
 */
module Fanout {
  import opened Base
  import opened Channels
  import Chanop
  import Publish

  /** The identity an authentication answers with. */
  datatype Identity = Identity(tenant: Id, account: Id, displayName: string)

  /**
   open says that the connection is still being served; closed that its socket is shut, after which
   frames for it vanish, although a handler that is under way still runs to its end.
   */
  datatype ConnState = ConnState(
    tenant: Id, account: Id, displayName: string, authed: bool, open: bool, closed: bool, challenged: bool,
    joined: map<string, Id>, roles: map<string, string>)

  const NEW_CONN := ConnState(0, 0, "", false, true, false, false, map[], map[])

  function Challenged(c: ConnState): ConnState {
    c.(challenged := true)
  }

  function Authenticated(c: ConnState, who: Identity): ConnState {
    c.(tenant := who.tenant, account := who.account, displayName := who.displayName, authed := true)
  }

  /** A challenge is spent by the first response, right or wrong. */
  function Answered(c: ConnState, who: Option<Identity>): ConnState {
    if !c.challenged then c
    else if who.None? then c.(challenged := false)
    else Authenticated(c.(challenged := false), who.value)
  }

  function Joined(c: ConnState, name: string, chan: Id, role: string): ConnState {
    c.(joined := c.joined[name := chan], roles := c.roles[name := role])
  }

  function Parted(c: ConnState, name: string): ConnState {
    c.(joined := c.joined - {name}, roles := c.roles - {name})
  }

  /** A broadcast: the channel it was for and the connections that took it. */
  datatype Delivery = Delivery(key: Key, to: set<Id>)

  /** names is the store's channel table; members holds the channels in memory, logs all that was said in them. */
  datatype State = State(
    names: map<(Id, string), Id>, conns: map<Id, ConnState>, members: map<Key, set<Id>>,
    logs: map<Key, seq<HistoryEntry>>, deliveries: seq<Delivery>)

  datatype Step =
    | CreateChannel(tenant: Id, name: string, chan: Id)
    | Accept(c: Id)
    | TokenAuth(c: Id, who: Option<Identity>)
    | PasswordRequest(c: Id, known: bool)
    | PasswordResponse(c: Id, who: Option<Identity>)
    | Join(c: Id, name: string, allowed: bool, role: string)
    | Part(c: Id, name: string)
    | Msg(c: Id, name: string, body: string, now: int, fits: bool) // fits: its frame can be encoded
    | ChanopNotice(c: Id, name: string, verb: string, target: string, reason: string, now: int, fits: bool)
    | PublishInbound(tenant: Id, name: string, from: Id, ev: Publish.InboundEvent, now: int, fits: bool)
    | ShutSocket(c: Id)
    | Close(c: Id)

  function Init(): State {
    State(map[], map[], map[], map[], [])
  }

  function In(f: State, k: Key): set<Id> {
    if k in f.members then f.members[k] else {}
  }

  function Broadcast(f: State, k: Key): State {
    f.(deliveries := f.deliveries + [Delivery(k, set c | c in In(f, k) && c in f.conns && !f.conns[c].closed)])
  }

  function LogOf(f: State, k: Key): seq<HistoryEntry> {
    if k in f.logs then f.logs[k] else []
  }

  /** A broadcast of what then goes into the history. */
  function Post(f: State, k: Key, e: HistoryEntry): State {
    Broadcast(f, k).(logs := f.logs[k := LogOf(f, k) + [e]])
  }

  function EntryBy(x: ConnState, now: int, body: string): HistoryEntry {
    HistoryEntry(x.account, x.displayName, now, body)
  }

  predicate Live(f: State, c: Id) {
    c in f.conns && f.conns[c].open
  }

  /** Handlers before authentication see only auth frames, and afterwards none of them. */
  predicate Enabled(f: State, s: Step) {
    match s
    case CreateChannel(t, n, ch) => (t, n) !in f.names && ch !in f.names.Values
    case Accept(c) => c !in f.conns
    case TokenAuth(c, _) => Live(f, c) && !f.conns[c].authed
    case PasswordRequest(c, _) => Live(f, c) && !f.conns[c].authed
    case PasswordResponse(c, _) => Live(f, c) && !f.conns[c].authed
    case Join(c, name, allowed, _) =>
      Live(f, c) && f.conns[c].authed && name != "" && (f.conns[c].tenant, name) in f.names && allowed
    case Part(c, name) => Live(f, c) && f.conns[c].authed && name in f.conns[c].joined
    case Msg(c, name, body, _, _) => Live(f, c) && f.conns[c].authed && body != "" && name in f.conns[c].joined
    case ChanopNotice(c, name, _, _, _, _, _) => Live(f, c) && f.conns[c].authed && name in f.conns[c].joined
    case PublishInbound(t, n, _, _, _, _) => (t, n) in f.names
    case ShutSocket(c) => Live(f, c)
    case Close(c) => Live(f, c)
  }

  function SetConn(f: State, c: Id, x: ConnState): State {
    f.(conns := f.conns[c := x])
  }

  function Apply(f: State, s: Step): State
    requires Enabled(f, s)
  {
    match s
    case CreateChannel(t, n, ch) => f.(names := f.names[(t, n) := ch])
    case Accept(c) => SetConn(f, c, NEW_CONN)
    case TokenAuth(c, who) => if who.None? then f else SetConn(f, c, Authenticated(f.conns[c], who.value))
    case PasswordRequest(c, known) => if known then SetConn(f, c, Challenged(f.conns[c])) else f
    case PasswordResponse(c, who) => SetConn(f, c, Answered(f.conns[c], who))
    case Join(c, name, _, role) =>
      var x := f.conns[c];
      var k := Key(x.tenant, f.names[(x.tenant, name)]);
      var f' := SetConn(f, c, Joined(x, name, k.chan, role)).(members := f.members[k := In(f, k) + {c}]);
      if c in In(f, k) then f' else Broadcast(f', k)
    case Part(c, name) =>
      var x := f.conns[c];
      var k := Key(x.tenant, x.joined[name]);
      var f' := SetConn(f, c, Parted(x, name));
      if k !in f.members then f'
      else if c !in f.members[k] then f'
      else Broadcast(f'.(members := f.members[k := f.members[k] - {c}]), k)
    case Msg(c, name, body, now, fits) =>
      var k := Key(f.conns[c].tenant, f.conns[c].joined[name]);
      if k !in f.members then SetConn(f, c, f.conns[c].(joined := f.conns[c].joined - {name}))
      else if !fits then f
      else Post(f, k, EntryBy(f.conns[c], now, body))
    case ChanopNotice(c, name, verb, target, reason, now, fits) =>
      var k := Key(f.conns[c].tenant, f.conns[c].joined[name]);
      if k !in f.members || !fits then f
      else Post(f, k, EntryBy(f.conns[c], now, Chanop.Notice(f.conns[c].displayName, verb, target, reason)))
    case PublishInbound(t, n, from, ev, now, fits) =>
      var k := Key(t, f.names[(t, n)]);
      if !fits then f
      else Post(f.(members := f.members[k := In(f, k)]), k, Publish.Entry(from, ev, now))
    case ShutSocket(c) => SetConn(f, c, f.conns[c].(closed := true))
    case Close(c) =>
      SetConn(f, c, f.conns[c].(open := false, closed := true)).(members := map k | k in f.members :: f.members[k] - {c})
  }

  function Next(f: State, s: Step): State {
    if Enabled(f, s) then Apply(f, s) else f
  }

  function After(steps: seq<Step>): State {
    if steps == [] then Init() else Next(After(steps[..|steps| - 1]), steps[|steps| - 1])
  }

  /** c is connected, authenticated for k's tenant, and has k's channel among its joined ones. */
  predicate JoinedTo(f: State, c: Id, k: Key) {
    Live(f, c) && f.conns[c].authed && f.conns[c].tenant == k.tenant && k.chan in f.conns[c].joined.Values
  }

  /** No two channels share an id. */
  ghost predicate Unique(names: map<(Id, string), Id>) {
    forall p, q :: p in names && q in names && names[p] == names[q] ==> p == q
  }

  /** What a connection has joined, it joined after authenticating, under the store's name and id. */
  ghost predicate ConnOk(names: map<(Id, string), Id>, x: ConnState) {
    forall n :: n in x.joined ==> x.authed && (x.tenant, n) in names && x.joined[n] == names[(x.tenant, n)]
  }

  /** Channel names are unique, and every connection's cached ids are the store's. */
  ghost predicate NamesOk(f: State) {
    Unique(f.names) && forall c :: c in f.conns ==> ConnOk(f.names, f.conns[c])
  }

  /** The members of every channel are exactly the connections joined to it. */
  ghost predicate MembersOk(f: State) {
    forall c, k :: c in In(f, k) <==> JoinedTo(f, c, k)
  }

  lemma StepNames(f: State, s: Step)
    requires NamesOk(f)
    ensures NamesOk(Next(f, s))
  {
    var f' := Next(f, s);
    if s.CreateChannel? && Enabled(f, s) {
      forall p, q | p in f'.names && q in f'.names && f'.names[p] == f'.names[q] ensures p == q {
        if p in f.names { assert f.names[p] in f.names.Values; }
        if q in f.names { assert f.names[q] in f.names.Values; }
      }
    }
    forall c | c in f'.conns ensures ConnOk(f'.names, f'.conns[c]) { StepConn(f, s, c); }
  }

  lemma StepConn(f: State, s: Step, c: Id)
    requires NamesOk(f) && c in Next(f, s).conns
    ensures ConnOk(Next(f, s).names, Next(f, s).conns[c])
  {
    if c in f.conns { assert ConnOk(f.names, f.conns[c]); }
  }

  /** Two joined names never stand for the same channel. */
  lemma JoinedDistinct(f: State, c: Id, n: string, m: string)
    requires NamesOk(f) && c in f.conns && n in f.conns[c].joined && m in f.conns[c].joined
    requires n != m
    ensures f.conns[c].joined[n] != f.conns[c].joined[m]
  {
    var t := f.conns[c].tenant;
    assert ConnOk(f.names, f.conns[c]) && (t, n) != (t, m);
  }

  lemma StepMembers(f: State, s: Step, c: Id, k: Key)
    requires NamesOk(f) && MembersOk(f)
    ensures c in In(Next(f, s), k) <==> JoinedTo(Next(f, s), c, k)
  {
    var f' := Next(f, s);
    assert c in In(f, k) <==> JoinedTo(f, c, k);
    if Enabled(f, s) {
      match s
      case Join(d, name, _, role) => JoinMembers(f, s, c, k);
      case Part(d, name) => PartMembers(f, s, c, k);
      case Msg(d, name, _, _, _) => InMemory(f, d, name);
      case ChanopNotice(_, _, _, _, _, _, _) =>
      case TokenAuth(d, _) => NotYetJoined(f, d);
      case PasswordResponse(d, _) => NotYetJoined(f, d);
      case PasswordRequest(d, _) =>
      case _ =>
    }
  }

  lemma NotYetJoined(f: State, c: Id)
    requires NamesOk(f) && c in f.conns && !f.conns[c].authed
    ensures f.conns[c].joined == map[]
  {
    assert ConnOk(f.names, f.conns[c]);
  }

  lemma InMemory(f: State, c: Id, name: string)
    requires MembersOk(f) && Live(f, c) && f.conns[c].authed && name in f.conns[c].joined
    ensures var k := Key(f.conns[c].tenant, f.conns[c].joined[name]); k in f.members && c in f.members[k]
  {
    var k := Key(f.conns[c].tenant, f.conns[c].joined[name]);
    assert k.chan in f.conns[c].joined.Values;
    assert c in In(f, k) <==> JoinedTo(f, c, k);
  }

  lemma JoinMembers(f: State, s: Step, c: Id, k: Key)
    requires NamesOk(f) && MembersOk(f) && s.Join? && Enabled(f, s)
    ensures c in In(Next(f, s), k) <==> JoinedTo(Next(f, s), c, k)
  {
    var f', x := Next(f, s), f.conns[s.c];
    var j := Key(x.tenant, f.names[(x.tenant, s.name)]);
    assert c in In(f, k) <==> JoinedTo(f, c, k);
    if c == s.c {
      var x' := f'.conns[c];
      assert x'.joined[s.name] == j.chan && j.chan in x'.joined.Values;
      assert k.chan in x'.joined.Values <==> k.chan == j.chan || k.chan in x.joined.Values by {
        if k.chan in x'.joined.Values {
          var n :| n in x'.joined && x'.joined[n] == k.chan;
        }
        if k.chan in x.joined.Values {
          var n :| n in x.joined && x.joined[n] == k.chan;
          if n == s.name { assert k.chan == j.chan; } else { assert x'.joined[n] == k.chan; }
        }
      }
      assert k.tenant == x.tenant && k.chan == j.chan ==> k == j;
    }
  }

  lemma PartMembers(f: State, s: Step, c: Id, k: Key)
    requires NamesOk(f) && MembersOk(f) && s.Part? && Enabled(f, s)
    ensures c in In(Next(f, s), k) <==> JoinedTo(Next(f, s), c, k)
  {
    var f', x := Next(f, s), f.conns[s.c];
    var name := s.name;
    var j := Key(x.tenant, x.joined[name]);
    InMemory(f, s.c, name);
    assert c in In(f, k) <==> JoinedTo(f, c, k);
    if c == s.c {
      var x' := f'.conns[c];
      assert k.chan in x'.joined.Values <==> k.chan in x.joined.Values && k.chan != j.chan by {
        if k.chan in x'.joined.Values {
          var n :| n in x'.joined && x'.joined[n] == k.chan;
          assert x.joined[n] == k.chan;
          JoinedDistinct(f, c, n, name);
        }
        if k.chan in x.joined.Values && k.chan != j.chan {
          var n :| n in x.joined && x.joined[n] == k.chan;
          assert n != name && x'.joined[n] == k.chan;
        }
      }
    }
  }

  lemma {:induction false} AlwaysOk(steps: seq<Step>)
    ensures NamesOk(After(steps)) && MembersOk(After(steps))
  {
    if steps != [] {
      var f, s := After(steps[..|steps| - 1]), steps[|steps| - 1];
      AlwaysOk(steps[..|steps| - 1]);
      StepNames(f, s);
      forall c, k ensures c in In(Next(f, s), k) <==> JoinedTo(Next(f, s), c, k) { StepMembers(f, s, c, k); }
    }
  }

  /**
   Fan-out isolation, in every reachable state: a connection is a member of (tenant, channel) if
   and only if it is open, authenticated, bound to that tenant and has the channel joined. So a
   closed or unauthenticated connection is a member of nothing.
   */
  lemma {:induction false} FanoutIsolation(steps: seq<Step>, c: Id, k: Key)
    ensures var f := After(steps);
      c in In(f, k) <==>
        c in f.conns && f.conns[c].open && f.conns[c].authed && f.conns[c].tenant == k.tenant
        && exists name :: name in f.conns[c].joined && f.conns[c].joined[name] == k.chan
  {
    AlwaysOk(steps);
    var f := After(steps);
    assert c in In(f, k) <==> JoinedTo(f, c, k);
    if c in f.conns && k.chan in f.conns[c].joined.Values {
      var name :| name in f.conns[c].joined && f.conns[c].joined[name] == k.chan;
    }
  }

  /** A step delivers to the members it leaves behind, as far as their sockets are up. */
  lemma NewDelivery(f: State, s: Step, i: nat)
    requires |f.deliveries| <= i < |Next(f, s).deliveries|
    ensures var f' := Next(f, s);
      var d := f'.deliveries[i];
      forall c :: c in d.to <==> c in In(f', d.key) && c in f'.conns && !f'.conns[c].closed
  {
  }

  /**
   A channel frame reaches exactly the connections joined to its channel: whatever step comes
   next, what it delivers for channel k is taken by the connections that are open, authenticated for
   k's tenant and joined to k after the step, and whose socket is not shut.
   */
  lemma DeliveredToJoinedOnly(steps: seq<Step>, s: Step, i: nat)
    requires |After(steps).deliveries| <= i < |After(steps + [s]).deliveries|
    ensures var f' := After(steps + [s]);
      var d := f'.deliveries[i];
      forall c :: c in d.to <==> JoinedTo(f', c, d.key) && !f'.conns[c].closed
  {
    assert (steps + [s])[..|steps|] == steps;
    AlwaysOk(steps + [s]);
    var f' := After(steps + [s]);
    var d := f'.deliveries[i];
    NewDelivery(After(steps), s, i);
    forall c ensures c in d.to <==> JoinedTo(f', c, d.key) && !f'.conns[c].closed {
      assert c in In(f', d.key) <==> JoinedTo(f', c, d.key);
    }
  }

  /** Presence is sent when a connection becomes or ceases to be a member, and only then; to all members it leaves. */
  lemma PresenceIff(steps: seq<Step>, c: Id, name: string, allowed: bool, role: string)
    requires var f := After(steps); Live(f, c) && f.conns[c].authed
    ensures var f, f' := After(steps), After(steps + [Join(c, name, allowed, role)]);
      var key := (f.conns[c].tenant, name);
      if name != "" && allowed && key in f.names && !JoinedTo(f, c, Key(key.0, f.names[key]))
      then |f'.deliveries| == |f.deliveries| + 1 && f'.deliveries[|f.deliveries|].key == Key(key.0, f.names[key])
      else f'.deliveries == f.deliveries
    ensures var f, f' := After(steps), After(steps + [Part(c, name)]);
      if name in f.conns[c].joined
      then |f'.deliveries| == |f.deliveries| + 1
           && f'.deliveries[|f.deliveries|].key == Key(f.conns[c].tenant, f.conns[c].joined[name])
      else f'.deliveries == f.deliveries
  {
    var f := After(steps);
    AlwaysOk(steps);
    assert (steps + [Join(c, name, allowed, role)])[..|steps|] == steps;
    assert (steps + [Part(c, name)])[..|steps|] == steps;
    var key := (f.conns[c].tenant, name);
    if key in f.names {
      assert c in In(f, Key(key.0, f.names[key])) <==> JoinedTo(f, c, Key(key.0, f.names[key]));
    }
    if name in f.conns[c].joined {
      var k := Key(f.conns[c].tenant, f.conns[c].joined[name]);
      assert f.conns[c].joined[name] in f.conns[c].joined.Values;
      assert c in In(f, k) <==> JoinedTo(f, c, k);
    }
  }

  lemma StepIdentity(f: State, s: Step, c: Id)
    requires c in f.conns
    ensures var f' := Next(f, s);
      && c in f'.conns
      && (f.conns[c].authed ==>
            f'.conns[c].authed && f'.conns[c].tenant == f.conns[c].tenant && f'.conns[c].account == f.conns[c].account)
      && (!f.conns[c].open ==> !f'.conns[c].open)
  {
  }

  /** Once a connection is authenticated its tenant and account never change, and a closed one stays closed. */
  lemma {:induction false} IdentityFixed(before: seq<Step>, rest: seq<Step>, c: Id)
    requires c in After(before).conns
    ensures var x, f' := After(before).conns[c], After(before + rest);
      && c in f'.conns
      && (x.authed ==> f'.conns[c].authed && f'.conns[c].tenant == x.tenant && f'.conns[c].account == x.account)
      && (!x.open ==> !f'.conns[c].open)
  {
    if rest == [] {
      assert before + rest == before;
    } else {
      IdentityFixed(before, rest[..|rest| - 1], c);
      assert (before + rest)[..|before + rest| - 1] == before + rest[..|rest| - 1];
      StepIdentity(After(before + rest[..|rest| - 1]), rest[|rest| - 1], c);
    }
  }

  /** No log holds an entry that looks like an unused slot of the ring. */
  ghost predicate Spoken(f: State) {
    forall k, i :: 0 <= i < |LogOf(f, k)| ==> !LogOf(f, k)[i].Blank()
  }

  /** A step appends at most one entry, to one log, and it is not blank. */
  lemma StepLogs(f: State, s: Step, k: Key)
    ensures var log, log' := LogOf(f, k), LogOf(Next(f, s), k);
      log' == log || (|log'| == |log| + 1 && log <= log' && !log'[|log|].Blank())
  {
    if Enabled(f, s) {
      match s
      case ChanopNotice(c, _, verb, target, reason, _, _) =>
        Chanop.NoticeNotEmpty(f.conns[c].displayName, verb, target, reason);
      case PublishInbound(_, _, from, ev, now, _) => Publish.EntryKept(from, ev, now);
      case _ =>
    }
  }

  lemma StepSpoken(f: State, s: Step, k: Key, i: nat)
    requires Spoken(f) && i < |LogOf(Next(f, s), k)|
    ensures !LogOf(Next(f, s), k)[i].Blank()
  {
    StepLogs(f, s, k);
    if i < |LogOf(f, k)| { assert LogOf(Next(f, s), k)[i] == LogOf(f, k)[i]; }
  }

  lemma {:induction false} AlwaysSpoken(steps: seq<Step>)
    ensures Spoken(After(steps))
  {
    if steps != [] {
      var f, s := After(steps[..|steps| - 1]), steps[|steps| - 1];
      AlwaysSpoken(steps[..|steps| - 1]);
      forall k, i | 0 <= i < |LogOf(Next(f, s), k)| ensures !LogOf(Next(f, s), k)[i].Blank() { StepSpoken(f, s, k, i); }
    }
  }

  /**
   In every run, whatever messages, notices and events made up a channel's history, its ring answers
   exactly the last min(n, 32, count) of them, oldest first.
   */
  lemma {:induction false} HistoryExact(steps: seq<Step>, k: Key, n: int)
    ensures var log := LogOf(After(steps), k);
      Recent(log, n) == LastN(log, Min(n, DEPTH))
  {
    AlwaysSpoken(steps);
    var log := LogOf(After(steps), k);
    RecentIsLastEntriesIff(log, n);
    var last := LastN(log, Min(n, DEPTH));
    forall e | e in last ensures !e.Blank() {
      var i :| 0 <= i < |last| && last[i] == e;
      assert e == log[|log| - |last| + i];
    }
  }

  // Whose connection it is

  /** Step k of the run answered an authentication of connection c with this identity, successfully. */
  ghost predicate Granted(steps: seq<Step>, k: nat, c: Id, who: Identity) {
    && k < |steps|
    && Live(After(steps[..k]), c) && !After(steps[..k]).conns[c].authed
    && (steps[k] == TokenAuth(c, Some(who))
        || (steps[k] == PasswordResponse(c, Some(who)) && After(steps[..k]).conns[c].challenged))
  }

  /** An identity was granted to c that says exactly this. */
  ghost predicate GrantedSome(steps: seq<Step>, c: Id, tenant: Id, account: Id, displayName: string) {
    exists k: nat, who :: Granted(steps, k, c, who) && who.tenant == tenant && who.account == account && who.displayName == displayName
  }

  lemma GrantedLater(steps: seq<Step>, s: Step, c: Id, tenant: Id, account: Id, displayName: string)
    requires GrantedSome(steps, c, tenant, account, displayName)
    ensures GrantedSome(steps + [s], c, tenant, account, displayName)
  {
    var k: nat, who :| Granted(steps, k, c, who) && who.tenant == tenant && who.account == account && who.displayName == displayName;
    assert (steps + [s])[..k] == steps[..k] && (steps + [s])[k] == steps[k];
    assert Granted(steps + [s], k, c, who);
  }

  /** Only an authentication step of c binds c, and it binds what it answered. */
  lemma StepBinds(f: State, s: Step, c: Id)
    requires c in Next(f, s).conns && Next(f, s).conns[c].authed
    ensures var x := Next(f, s).conns[c];
      || (c in f.conns && f.conns[c].authed && f.conns[c].tenant == x.tenant
          && f.conns[c].account == x.account && f.conns[c].displayName == x.displayName)
      || (Live(f, c) && !f.conns[c].authed
          && exists who :: (s == TokenAuth(c, Some(who)) || (s == PasswordResponse(c, Some(who)) && f.conns[c].challenged))
               && who.tenant == x.tenant && who.account == x.account && who.displayName == x.displayName)
  {
    var x := Next(f, s).conns[c];
    if Enabled(f, s) && !(c in f.conns && f.conns[c].authed) {
      match s
      case TokenAuth(_, who) => assert s == TokenAuth(c, Some(who.value));
      case PasswordResponse(_, who) => assert s == PasswordResponse(c, Some(who.value));
      case _ =>
    }
  }

  /**
   In every run an authenticated connection has the tenant, account and display name that a successful
   token or password authentication of that connection answered.
   */
  lemma {:induction false} BoundAsGranted(steps: seq<Step>, c: Id)
    requires c in After(steps).conns && After(steps).conns[c].authed
    ensures var x := After(steps).conns[c]; GrantedSome(steps, c, x.tenant, x.account, x.displayName)
  {
    if steps != [] {
      var before, s := steps[..|steps| - 1], steps[|steps| - 1];
      var f, x := After(before), After(steps).conns[c];
      assert steps == before + [s];
      StepBinds(f, s, c);
      if c in f.conns && f.conns[c].authed && f.conns[c].tenant == x.tenant
         && f.conns[c].account == x.account && f.conns[c].displayName == x.displayName {
        BoundAsGranted(before, c);
        GrantedLater(before, s, c, x.tenant, x.account, x.displayName);
      } else {
        var who :| (s == TokenAuth(c, Some(who)) || (s == PasswordResponse(c, Some(who)) && f.conns[c].challenged))
          && who.tenant == x.tenant && who.account == x.account && who.displayName == x.displayName;
        assert Granted(steps, |before|, c, who);
      }
    }
  }

  /** A frame is only ever taken by connections that were authenticated for the tenant of its channel. */
  lemma FrameStaysInTenant(steps: seq<Step>, s: Step, i: nat, c: Id)
    requires |After(steps).deliveries| <= i < |After(steps + [s]).deliveries|
    requires c in After(steps + [s]).deliveries[i].to
    ensures exists account, name :: GrantedSome(steps + [s], c, After(steps + [s]).deliveries[i].key.tenant, account, name)
  {
    DeliveredToJoinedOnly(steps, s, i);
    BoundAsGranted(steps + [s], c);
    var x := After(steps + [s]).conns[c];
    assert GrantedSome(steps + [s], c, x.tenant, x.account, x.displayName);
  }

  /** What is said is said by a connection that is joined to the channel, under its own name. */
  lemma OnlyJoinedSpeak(steps: seq<Step>, c: Id, name: string, body: string, now: int, fits: bool, k: Key)
    ensures var f := After(steps);
      var f' := After(steps + [Msg(c, name, body, now, fits)]);
      LogOf(f', k) != LogOf(f, k) ==>
        && body != "" && JoinedTo(f, c, k)
        && LogOf(f', k) == LogOf(f, k) + [HistoryEntry(f.conns[c].account, f.conns[c].displayName, now, body)]
  {
    var f, s := After(steps), Msg(c, name, body, now, fits);
    assert (steps + [s])[..|steps|] == steps;
    if Enabled(f, s) { assert f.conns[c].joined[name] in f.conns[c].joined.Values; }
  }
}
