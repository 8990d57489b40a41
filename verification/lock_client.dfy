/**
 One elector as an object (internal/ha/postgres.go): its held session and its cancel function. Its
 methods keep the invariant that Elector proves of many of them together: a live leader context whose
 session lives holds the lock.

 What other sessions do to the lock, failing queries and the outcomes of pings are parameters.
 */
module LockClient {
  import opened Base

  const ACQUIRE_RETRY := 1 * SECOND

  /** A leader context; cancelling it is for good. */
  class Context {
    var live: bool

    constructor ()
      ensures live
    {
      live := true;
    }
  }

  class Database {
    var sessions: set<nat>
    var holder: Option<nat>

    constructor ()
      ensures sessions == {} && holder == None
    {
      sessions, holder := {}, None;
    }

    /** pg_try_advisory_lock, after the other sessions have left the lock to left. */
    method TryLock(session: nat, left: Option<nat>) returns (got: bool)
      requires session in sessions && left != Some(session)
      modifies this`holder
      ensures got <==> left == None
      ensures holder == if got then Some(session) else left
    {
      holder := left;
      got := holder == None;
      if got {
        holder := Some(session);
      }
    }

    /** pg_advisory_unlock and closing the connection. No leader may believe in this lock any more. */
    method Unlock(session: nat, ghost leader: Option<Context>)
      requires leader.Some? ==> !leader.value.live
      modifies this
      ensures sessions == old(sessions) - {session}
      ensures holder == if old(holder) == Some(session) then None else old(holder)
    {
      if holder == Some(session) {
        holder := None;
      }
      Close(session);
    }

    method Close(session: nat)
      modifies this
      ensures sessions == old(sessions) - {session}
      ensures holder == if old(holder) == Some(session) then None else old(holder)
    {
      if holder == Some(session) {
        holder := None;
      }
      sessions := sessions - {session};
    }
  }

  /** What may end a round of the acquiring loop before the lock is tried. */
  datatype Stop = ParentDone | QueryFailed

  /** The world around the acquiring loop: what stops round i, and who holds the lock when it tries. */
  datatype World = World(stops: nat -> Option<Stop>, left: nat -> Option<nat>)
  {
    predicate Decides(i: nat) { stops(i).Some? || left(i) == None }
  }

  /** What the heartbeat's select comes up with. */
  datatype Beat = LeaderDone | ParentGone | PingOk | PingFailed

  /** One round of the heartbeat: whether the database has just dropped the session, and what the select would see. */
  datatype Round = Round(lost: bool, beat: Beat)
  {
    function Seen(): Beat { if lost && beat == PingOk then PingFailed else beat }

    predicate Ends() { Seen() != PingOk }
  }

  class Postgres {
    var held: Option<nat>
    var cancel: Option<Context>

    constructor ()
      ensures held == None && cancel == None
    {
      held, cancel := None, None;
    }

    /** A live leader context whose session lives holds the lock. */
    ghost predicate Sound(db: Database)
      reads this, Contexts(), db
    {
      cancel.Some? && cancel.value.live && held.Some? && held.value in db.sessions ==> db.holder == held
    }

    /**
     Acquire on a fresh session, while no earlier context is live. It polls until the lock is granted
     or something stops it; last only bounds how long that takes.
     */
    method Acquire(db: Database, session: nat, world: World, ghost last: nat)
      returns (leader: Option<Context>, rounds: nat, waited: int)
      requires world.Decides(last) && session in db.sessions && forall i :: world.left(i) != Some(session)
      requires cancel.Some? ==> !cancel.value.live
      modifies this, db
      ensures world.Decides(rounds) && forall i :: 0 <= i < rounds ==> !world.Decides(i)
      ensures waited == rounds * ACQUIRE_RETRY
      ensures leader.Some? <==> world.stops(rounds).None?
      ensures leader.Some? ==>
        && fresh(leader.value) && leader.value.live && held == Some(session) && cancel == leader
        && db.sessions == old(db.sessions) && db.holder == Some(session)
      ensures leader.None? ==>
        held == old(held) && cancel == old(cancel) && db.sessions == old(db.sessions) - {session}
      ensures Sound(db)
    {
      rounds, waited := 0, 0;
      while true
        invariant rounds <= last && waited == rounds * ACQUIRE_RETRY
        invariant forall i :: 0 <= i < rounds ==> !world.Decides(i)
        invariant held == old(held) && cancel == old(cancel) && db.sessions == old(db.sessions)
        decreases last - rounds
      {
        if world.stops(rounds).Some? {
          db.Close(session);
          return None, rounds, waited;
        }
        var got := db.TryLock(session, world.left(rounds));
        if got {
          break;
        }
        waited := waited + ACQUIRE_RETRY;
        rounds := rounds + 1;
      }
      var ctx := new Context();
      held, cancel := Some(session), Some(ctx);
      leader := cancel;
    }

    function Contexts(): set<Context>
      reads this
    {
      if cancel.Some? then {cancel.value} else {}
    }

    /** Cancels first and unlocks afterwards, so that no live leader is without its lock. */
    method Release(db: Database)
      modifies this, Contexts(), db
      ensures held == None && cancel == None
      ensures Sound(db)
      ensures old(cancel).Some? ==> !old(cancel).value.live
      ensures db.sessions == old(db.sessions) - if old(held).Some? then {old(held).value} else {}
      ensures db.holder == if old(held).Some? && old(db.holder) == old(held) then None else old(db.holder)
    {
      var session, ctx := held, cancel;
      held, cancel := None, None;
      if ctx.Some? {
        ctx.value.live := false;
      }
      if session.None? {
        return;
      }
      db.Unlock(session.value, ctx);
    }

    /**
     How a heartbeat ends. A failed ping cancels whatever context the elector has by then, even when the
     heartbeat is left over from an earlier leadership.
     */
    method EndHeartbeat(db: Database, beat: Beat)
      requires beat != PingOk && Sound(db)
      modifies this, Contexts(), db
      ensures Sound(db)
      ensures beat in {PingFailed, ParentGone} && old(cancel).Some? ==> !old(cancel).value.live
      ensures beat == ParentGone ==>
        && held == None && cancel == None
        && db.sessions == old(db.sessions) - if old(held).Some? then {old(held).value} else {}
      ensures beat != ParentGone ==>
        held == old(held) && cancel == old(cancel) && db.sessions == old(db.sessions) && db.holder == old(db.holder)
      ensures beat == LeaderDone ==> unchanged(Contexts())
    {
      match beat {
        case LeaderDone =>
        case ParentGone => Release(db);
        case PingFailed =>
          if cancel.Some? {
            cancel.value.live := false;
          }
      }
    }

    /**
     The heartbeat on session: it goes on until the first thing that is not a successful ping. Once the
     database has dropped the session a ping fails.
     */
    method Heartbeat(db: Database, session: nat, rounds: nat -> Round, ghost last: nat) returns (pings: nat)
      requires rounds(last).Ends() && Sound(db)
      modifies this, Contexts(), db
      ensures Sound(db)
      ensures rounds(pings).Ends() && forall i :: 0 <= i < pings ==> !rounds(i).Ends()
      ensures rounds(pings).Seen() != LeaderDone && old(cancel).Some? ==> !old(cancel).value.live
      ensures rounds(pings).lost ==> session !in db.sessions
      ensures rounds(pings).Seen() != ParentGone ==>
        && held == old(held) && cancel == old(cancel)
        && db.sessions == old(db.sessions) - if rounds(pings).lost then {session} else {}
    {
      pings := 0;
      while !rounds(pings).Ends()
        invariant pings <= last && forall i :: 0 <= i < pings ==> !rounds(i).Ends()
        decreases last - pings
      {
        pings := pings + 1;
      }
      if rounds(pings).lost {
        db.Close(session);
      }
      EndHeartbeat(db, rounds(pings).Seen());
    }
  }
}
