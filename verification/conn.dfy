/**
 One connection (internal/server/conn.go): the fields its handlers update, and the registry calls
 they make. Each handler is proved against the transition that Fanout reasons about.
 */
module Conns {
  import opened Base
  import opened Channels
  import opened Fanout

  const OUTBOUND_QUEUE := 1024

  class Conn {
    const id: Id
    var tenant: Id
    var account: Id
    var displayName: string
    var authed: bool
    var closed: bool
    var served: bool
    var pendingChal: bool
    var joinedChannels: map<string, Id>
    var joinedRoles: map<string, string>
    var out: seq<string>
    var dropCount: nat

    constructor (id: Id)
      ensures this.id == id && State() == NEW_CONN && out == [] && dropCount == 0
    {
      this.id := id;
      tenant, account, displayName := 0, 0, "";
      authed, closed, served, pendingChal := false, false, true, false;
      joinedChannels, joinedRoles, out, dropCount := map[], map[], [], 0;
    }

    function State(): ConnState
      reads this
    {
      ConnState(tenant, account, displayName, authed, served, closed, pendingChal, joinedChannels, joinedRoles)
    }

    function AsMember(): Member
      reads this
    {
      Member(id, account, displayName)
    }

    /** Never blocks: a frame for a full queue is dropped and counted, one for a closed connection vanishes. */
    method Enqueue(frame: string)
      modifies this`out, this`dropCount
      ensures out == if !closed && |old(out)| < 1024 then old(out) + [frame] else old(out)
      ensures dropCount == old(dropCount) + if !closed && |old(out)| >= 1024 then 1 else 0
    {
      if closed {
        return;
      }
      if |out| < OUTBOUND_QUEUE {
        out := out + [frame];
      } else {
        dropCount := dropCount + 1;
      }
    }

    /** handleTokenAuthRequest; who is the store's answer to a non-empty token. */
    method HandleToken(token: string, who: Option<Identity>) returns (ok: bool)
      requires !authed
      modifies this`tenant, this`account, this`displayName, this`authed
      ensures ok <==> token != "" && who.Some?
      ensures ok ==> authed && tenant == who.value.tenant && account == who.value.account && displayName == who.value.displayName
      ensures !ok ==> !authed && tenant == old(tenant) && account == old(account) && displayName == old(displayName)
      ensures State() == if ok then Authenticated(old(State()), who.value) else old(State())
    {
      if token == "" {
        return false;
      }
      if who.None? {
        return false;
      }
      tenant, account, displayName := who.value.tenant, who.value.account, who.value.displayName;
      authed := true;
      ok := true;
    }

    /** handlePasswordAuthRequest; known tells whether tenant and user could be looked up. */
    method HandlePasswordRequest(tenantSlug: string, username: string, known: bool) returns (challenge: bool)
      requires !authed
      modifies this`pendingChal
      ensures challenge <==> tenantSlug != "" && username != "" && known
      ensures pendingChal == (old(pendingChal) || challenge)
      ensures State() == if challenge then Challenged(old(State())) else old(State())
    {
      if tenantSlug == "" || username == "" || !known {
        return false;
      }
      pendingChal := true;
      challenge := true;
    }

    /** handleAuthResponse; who is the verdict on the proof for the pending challenge. */
    method HandleAuthResponse(who: Option<Identity>) returns (ok: bool)
      requires !authed
      modifies this`tenant, this`account, this`displayName, this`authed, this`pendingChal
      ensures ok <==> old(pendingChal) && who.Some?
      ensures ok ==> authed && tenant == who.value.tenant && account == who.value.account && displayName == who.value.displayName
      ensures !ok ==> !authed && tenant == old(tenant) && account == old(account) && displayName == old(displayName)
      ensures !pendingChal
      ensures State() == Answered(old(State()), who)
    {
      if !pendingChal {
        return false;
      }
      pendingChal := false;
      if who.None? {
        return false;
      }
      tenant, account, displayName := who.value.tenant, who.value.account, who.value.displayName;
      authed := true;
      ok := true;
    }

    /**
     handleJoin: found is the store's channel of that name in the tenant, allowed the ACL verdict.
     When the connection is new to the channel, presence goes to all its members.
     */
    method HandleJoin(reg: Registry, name: string, found: Option<Id>, allowed: bool, role: string)
      returns (presence: Option<set<Id>>)
      requires reg.Valid() && authed
      modifies this`joinedChannels, this`joinedRoles, reg.shards, reg.All()`members
      ensures reg.Valid()
      ensures joinedChannels ==
        if name != "" && found.Some? && allowed then old(joinedChannels)[name := found.value] else old(joinedChannels)
      ensures joinedRoles == if name != "" && found.Some? && allowed then old(joinedRoles)[name := role] else old(joinedRoles)
      ensures State() == if name != "" && found.Some? && allowed then Joined(old(State()), name, found.value, role) else old(State())
      ensures name != "" && found.Some? && allowed ==>
        var at := Key(tenant, found.value);
        && (forall k :: reg.MembersOf(k) ==
              if k == at then old(reg.MembersOf(k))[id := Member(id, account, displayName)] else old(reg.MembersOf(k)))
        && (presence.Some? <==> id !in old(reg.MembersOf(Key(tenant, found.value))))
        && (presence.Some? ==> presence.value == reg.MembersOf(at).Keys)
      ensures name == "" || found.None? || !allowed ==>
        presence.None? && forall k :: reg.MembersOf(k) == old(reg.MembersOf(k))
    {
      if name == "" || found.None? || !allowed {
        return None;
      }
      CacheJoin(name, found.value, role);
      presence := Enter(reg, found.value, name);
    }

    /** The channel's id and the role in it are cached on the connection. */
    method CacheJoin(name: string, chan: Id, role: string)
      modifies this`joinedChannels, this`joinedRoles
      ensures joinedChannels == old(joinedChannels)[name := chan] && joinedRoles == old(joinedRoles)[name := role]
      ensures State() == Joined(old(State()), name, chan, role)
    {
      joinedChannels := joinedChannels[name := chan];
      joinedRoles := joinedRoles[name := role];
    }

    /** Into the channel, which comes into memory if it was not. */
    method Enter(reg: Registry, chan: Id, name: string) returns (presence: Option<set<Id>>)
      requires reg.Valid()
      modifies reg.shards, reg.All()`members
      ensures reg.Valid()
      ensures presence.Some? <==> id !in old(reg.MembersOf(Key(tenant, chan)))
      ensures presence.Some? ==> presence.value == reg.MembersOf(Key(tenant, chan)).Keys
      ensures forall k ::
        reg.MembersOf(k) == if k == Key(tenant, chan) then old(reg.MembersOf(k))[id := Member(id, account, displayName)] else old(reg.MembersOf(k))
    {
      var ch := reg.GetOrCreate(tenant, chan, name);
      var added := reg.AddMemberTo(ch, AsMember());
      presence := if added then Some(ch.members.Keys) else None;
    }

    /** handlePart: presence goes to those who remain. */
    method HandlePart(reg: Registry, name: string) returns (presence: Option<set<Id>>)
      requires reg.Valid() && authed
      modifies this`joinedChannels, this`joinedRoles, reg.All()`members
      ensures reg.Valid()
      ensures joinedChannels == if name != "" then old(joinedChannels) - {name} else old(joinedChannels)
      ensures joinedRoles == if name != "" && name in old(joinedChannels) then old(joinedRoles) - {name} else old(joinedRoles)
      ensures State() == if name != "" && name in old(joinedChannels) then Parted(old(State()), name) else old(State())
      ensures name != "" && name in old(joinedChannels) ==>
        var at := Key(tenant, old(joinedChannels)[name]);
        && (forall k :: reg.MembersOf(k) == if k == at then old(reg.MembersOf(k)) - {id} else old(reg.MembersOf(k)))
        && (presence.Some? <==> id in old(reg.MembersOf(Key(tenant, joinedChannels[name]))))
        && (presence.Some? ==> presence.value == reg.MembersOf(at).Keys)
      ensures name == "" || name !in old(joinedChannels) ==>
        presence.None? && forall k :: reg.MembersOf(k) == old(reg.MembersOf(k))
    {
      if name == "" || name !in joinedChannels {
        return None;
      }
      var chan := joinedChannels[name];
      joinedChannels := joinedChannels - {name};
      joinedRoles := joinedRoles - {name};
      presence := Leave(reg, chan);
    }

    /** Out of the channel, if it is in memory. */
    method Leave(reg: Registry, chan: Id) returns (presence: Option<set<Id>>)
      requires reg.Valid()
      modifies reg.All()`members
      ensures reg.Valid()
      ensures presence.Some? <==> id in old(reg.MembersOf(Key(tenant, chan)))
      ensures presence.Some? ==> presence.value == reg.MembersOf(Key(tenant, chan)).Keys
      ensures forall k ::
        reg.MembersOf(k) == if k == Key(tenant, chan) then old(reg.MembersOf(k)) - {id} else old(reg.MembersOf(k))
    {
      var ch := reg.Get(tenant, chan);
      if ch.None? {
        return None;
      }
      var removed := reg.RemoveMemberFrom(ch.value, id);
      presence := if removed then Some(ch.value.members.Keys) else None;
    }

    /**
     handleMsg: the message goes to every member and then into the history. What the webhooks get
     as context is the history without it. fits tells whether the frame is small enough to encode.
     */
    method HandleMsg(reg: Registry, name: string, body: string, now: int, fits: bool)
      returns (to: Option<set<Id>>, context: seq<HistoryEntry>)
      requires reg.Valid() && authed
      modifies this`joinedChannels, reg.All()`histPos, reg.All()`log, reg.Rings()
      ensures reg.Valid()
      ensures var inMemory := name in old(joinedChannels) && old(reg.Find(Key(tenant, joinedChannels[name]))).Some?;
        && (to.Some? <==> name != "" && body != "" && inMemory && fits)
        && (to.Some? ==>
              && name in old(joinedChannels)
              && to.value == reg.MembersOf(Key(tenant, old(joinedChannels)[name])).Keys
              && context == Recent(old(reg.LogOf(Key(tenant, joinedChannels[name]))), DEPTH))
      ensures forall k ::
        reg.LogOf(k) == if to.Some? && k == Key(tenant, old(joinedChannels)[name])
                        then old(reg.LogOf(k)) + [HistoryEntry(account, displayName, now, body)] else old(reg.LogOf(k))
      ensures joinedChannels ==
        if name != "" && body != "" && name in old(joinedChannels) && old(reg.Find(Key(tenant, joinedChannels[name]))).None?
        then old(joinedChannels) - {name} else old(joinedChannels)
    {
      if name == "" || body == "" || name !in joinedChannels {
        return None, [];
      }
      var found := reg.Get(tenant, joinedChannels[name]);
      if found.None? {
        joinedChannels := joinedChannels - {name};
        return None, [];
      }
      to, context := Say(reg, joinedChannels[name], body, now, fits);
    }

    function Said(body: string, now: int): HistoryEntry
      reads this
    {
      HistoryEntry(account, displayName, now, body)
    }

    /** Broadcast and append, if the channel is in memory and the frame can be encoded. */
    method Say(reg: Registry, chan: Id, body: string, now: int, fits: bool)
      returns (to: Option<set<Id>>, context: seq<HistoryEntry>)
      requires reg.Valid()
      modifies reg.All()`histPos, reg.All()`log, reg.Rings()
      ensures reg.Valid()
      ensures to == if old(reg.Find(Key(tenant, chan))).Some? && fits then Some(reg.MembersOf(Key(tenant, chan)).Keys) else None
      ensures to.Some? ==> context == Recent(old(reg.LogOf(Key(tenant, chan))), DEPTH)
      ensures forall k ::
        reg.LogOf(k) == if to.Some? && k == Key(tenant, chan) then old(reg.LogOf(k)) + [Said(body, now)] else old(reg.LogOf(k))
    {
      var found := reg.Get(tenant, chan);
      if found.None? || !fits {
        return None, [];
      }
      var everyone;
      everyone, context := reg.Post(found.value, Said(body, now));
      to := Some(everyone);
    }

    /** emitChanopSystemMsg: the operator's notice takes the way of a message, but no webhook sees it. */
    method EmitSystemMsg(reg: Registry, chan: Id, body: string, now: int, fits: bool) returns (to: Option<set<Id>>)
      requires reg.Valid()
      modifies reg.All()`histPos, reg.All()`log, reg.Rings()
      ensures reg.Valid()
      ensures to == if old(reg.Find(Key(tenant, chan))).Some? && fits then Some(reg.MembersOf(Key(tenant, chan)).Keys) else None
      ensures forall k ::
        reg.LogOf(k) == if to.Some? && k == Key(tenant, chan) then old(reg.LogOf(k)) + [HistoryEntry(account, displayName, now, body)] else old(reg.LogOf(k))
    {
      var context;
      to, context := Say(reg, chan, body, now, fits);
    }

    /** The context has ended: the socket is shut, and close follows when the handlers are done. */
    method ShutSocket()
      modifies this`closed
      ensures State() == old(State()).(closed := true)
    {
      closed := true;
    }

    /** close: out of every channel, and no presence is sent. Only the first call does anything. */
    method Close(reg: Registry)
      requires reg.Valid()
      modifies this`closed, this`served, reg.All()`members
      ensures reg.Valid()
      ensures State() == if old(served) then old(State()).(open := false, closed := true) else old(State())
      ensures forall k :: reg.MembersOf(k) == if old(served) then old(reg.MembersOf(k)) - {id} else old(reg.MembersOf(k))
    {
      if !served {
        return;
      }
      closed, served := true, false;
      reg.RemoveMemberFromAll(id);
    }
  }
}
