/**
 The objects of internal/session/session.go, updated in place, each method proved against the
 value function of SessionCore for the section of the source that it performs.
 */
module SessionManager {
  import opened Common
  import opened SessionCore

  class Session {
    const id: string
    const created: int
    var endpoint: Endpoint
    var lastActive: int
    var activeConn: int
    var ready: bool
    var err: Option<string>

    /** The allocation index that names this object in the value model. */
    ghost const serial: Sid

    constructor (id: string, now: int, ghost serial: Sid)
      ensures this.id == id && this.serial == serial
      ensures Value() == NewRec(id, now)
      ensures created == now && lastActive == now && activeConn == 0 && endpoint == ZERO_ENDPOINT && err.None? && !ready
    {
      this.id := id;
      created := now;
      lastActive := now;
      activeConn := 0;
      endpoint := ZERO_ENDPOINT;
      err := None;
      ready := false;
      this.serial := serial;
    }

    ghost function Value(): Rec
      reads this
    {
      Rec(id, created, lastActive, activeConn, endpoint, err, ready)
    }

    method MarkActive(now: int)
      modifies this`lastActive
      ensures Value() == old(Value()).(lastActive := now)
    {
      lastActive := now;
    }

    method ConnOpened(now: int)
      modifies this`activeConn, this`lastActive
      ensures Value() == old(Value()).(conns := old(activeConn) + 1, lastActive := now)
    {
      activeConn := activeConn + 1;
      MarkActive(now);
    }

    method ConnClosed(now: int)
      modifies this`activeConn, this`lastActive
      ensures Value() == old(Value()).(conns := old(activeConn) - 1, lastActive := now)
    {
      activeConn := activeConn - 1;
      MarkActive(now);
    }
  }

  /** `victims` lists, each once, the entries under the ids of `done` that the cutoff dooms. */
  ghost predicate AreVictims(victims: seq<Session>, entries: map<string, Session>, c: Core, cutoff: int,
                             done: set<string>)
  {
    && (forall i, j :: 0 <= i < j < |victims| ==> victims[i] != victims[j])
    && (forall s <- victims :: s.id in done && s.id in entries && entries[s.id] == s && Doomed(c, s.id, cutoff))
    && (forall id <- done :: id in entries && Doomed(c, id, cutoff) ==> entries[id] in victims)
  }

  lemma OneMoreVictim(victims: seq<Session>, entries: map<string, Session>, c: Core, cutoff: int, done: set<string>,
                      id: string)
    requires AreVictims(victims, entries, c, cutoff, done)
    requires id in entries && entries[id].id == id && id !in done
    ensures AreVictims(if Doomed(c, id, cutoff) then victims + [entries[id]] else victims, entries, c, cutoff,
                       done + {id})
  {
  }

  lemma DoneGrows(keys: set<string>, todo: set<string>, id: string)
    requires id in todo && todo <= keys
    ensures keys - (todo - {id}) == keys - todo + {id}
  {
  }

  class Manager {
    const idleTTL: int
    var sessions: map<string, Session>
    var lastRefresh: map<string, int>

    /** Every session this manager ever allocated, oldest first. */
    ghost var all: seq<Session>

    ghost predicate Owns(s: Session)
      reads this
    {
      s.serial < |all| && all[s.serial] == s
    }

    ghost predicate Valid()
      reads this
    {
      && (forall i :: 0 <= i < |all| ==> all[i].serial == i)
      && (forall id <- sessions :: Owns(sessions[id]) && sessions[id].id == id)
    }

    /** The value the manager's objects represent. */
    ghost function Abs(): Core
      reads this, all
    {
      Core(seq(|all|, i requires 0 <= i < |all| reads this, all => all[i].Value()),
           map id | id in sessions :: sessions[id].serial,
           lastRefresh)
    }

    constructor (idleTTL: int)
      ensures Valid() && this.idleTTL == idleTTL
      ensures Abs() == EMPTY
    {
      this.idleTTL := idleTTL;
      sessions := map[];
      lastRefresh := map[];
      all := [];
    }

    /** Allocates a session and installs it. */
    method Install(id: string, now: int) returns (sess: Session)
      requires Valid()
      modifies this`sessions, this`all
      ensures Valid() && fresh(sess)
      ensures all == old(all) + [sess]
      ensures Owns(sess) && sess.id == id && sess.serial == |old(all)|
      ensures Abs() == Create(old(Abs()), id, now)
      ensures sessions == old(sessions)[id := sess] && !sess.ready && sess.lastActive == now
    {
      sess := new Session(id, now, |all|);
      label before:
      sessions := sessions[id := sess];
      all := all + [sess];
      assert Abs().recs == Create(old(Abs()), id, now).recs;
      assert Abs().sessions == Create(old(Abs()), id, now).sessions;
    }

    /** The first locked section of Get. */
    method Enter(id: string, now: int) returns (sess: Session, isNew: bool)
      requires Valid()
      modifies this`sessions, this`all
      ensures Valid() && Owns(sess) && sess.id == id
      ensures isNew == (id !in old(sessions))
      ensures (Abs(), sess.serial) == GetEnter(old(Abs()), id, now)
      ensures sessions == if isNew then old(sessions)[id := sess] else old(sessions)
      ensures if isNew then fresh(sess) && !sess.ready && sess.lastActive == now else sess == old(sessions[id])
    {
      if id in sessions {
        sess, isNew := sessions[id], false;
      } else {
        sess := Install(id, now);
        isNew := true;
      }
    }

    /** Resolve, after Ensure returned: fill in the session, then close its channel. */
    method Finish(sess: Session, o: Outcome)
      requires Valid() && Owns(sess)
      modifies sess`endpoint, sess`err, sess`ready
      ensures Valid()
      ensures Abs() == CloseReady(Publish(old(Abs()), sess.serial, o), sess.serial)
      ensures sess.ready && sess.endpoint == (if o.Success? then o.endpoint else old(sess.endpoint))
      ensures sess.err == if o.Failure? then Some(o.err) else old(sess.err)
    {
      match o {
        case Failure(e) => sess.err := Some(e);
        case Success(ep) => sess.endpoint := ep;
      }
      sess.ready := true;
      assert Abs().recs == CloseReady(Publish(old(Abs()), sess.serial, o), sess.serial).recs;
    }

    /** The second locked section of Get, entered by a waiter that saw a failure. */
    method DropBroken(id: string, sess: Session)
      requires Valid() && Owns(sess)
      modifies this`sessions
      ensures Valid()
      ensures Abs() == DropFailed(old(Abs()), id, sess.serial)
      ensures sessions == if id in old(sessions) && old(sessions)[id] == sess then old(sessions) - {id}
                          else old(sessions)
    {
      if id in sessions && sessions[id] == sess {
        sessions := sessions - {id};
      }
      assert Abs().recs == old(Abs()).recs;
      assert Abs().sessions == DropFailed(old(Abs()), id, sess.serial).sessions;
    }

    /**
     The locked section of Refresh. `cooling` tells that the cooldown branch was taken, and then
     `cur` is whatever entry the map holds, ready or not.
     */
    method RefreshLocked(stale: Session, now: int) returns (cooling: bool, cur: Option<Session>)
      requires Valid() && Owns(stale)
      modifies this`sessions, this`lastRefresh
      ensures Valid()
      ensures cooling == CoolingDown(old(Abs()), stale.id, now)
      ensures cooling ==> Abs() == old(Abs())
      ensures cooling && stale.id in sessions ==> cur == Some(sessions[stale.id])
      ensures !cooling || stale.id !in sessions ==> cur == None
      ensures !cooling ==> Abs() == RefreshDrop(old(Abs()), stale.id, stale.serial, now)
      ensures cooling <==> stale.id in old(lastRefresh) && now - old(lastRefresh)[stale.id] < 2_000_000_000
      ensures lastRefresh == if cooling then old(lastRefresh) else old(lastRefresh)[stale.id := now]
      ensures sessions == if !cooling && stale.id in old(sessions) && old(sessions)[stale.id] == stale
                          then old(sessions) - {stale.id} else old(sessions)
    {
      cur := None;
      if stale.id in lastRefresh && now - lastRefresh[stale.id] < REFRESH_COOLDOWN {
        cooling := true;
        if stale.id in sessions {
          cur := Some(sessions[stale.id]);
        }
        return;
      }
      cooling := false;
      DropBroken(stale.id, stale);
      lastRefresh := lastRefresh[stale.id := now];
    }

    /** The body of the reaper's locked loop, for the entry of `id`. */
    method VisitLocked(id: string, cutoff: int) returns (victim: bool)
      requires Valid() && id in sessions
      modifies this`sessions, this`lastRefresh
      ensures Valid()
      ensures victim == Doomed(old(Abs()), id, cutoff)
      ensures Abs() == ReapVisit(old(Abs()), id, cutoff)
      ensures victim <==> old(sessions[id].ready && sessions[id].activeConn <= 0 && sessions[id].lastActive <= cutoff)
      ensures sessions == if victim then old(sessions) - {id} else old(sessions)
      ensures lastRefresh == if victim then old(lastRefresh) - {id} else old(lastRefresh)
    {
      var sess := sessions[id];
      assert Abs().recs[sess.serial] == sess.Value();
      if !sess.ready || sess.activeConn > 0 || sess.lastActive > cutoff {
        return false;
      }
      sessions := sessions - {id};
      lastRefresh := lastRefresh - {id};
      assert Abs().recs == old(Abs()).recs;
      assert Abs().sessions == old(Abs()).sessions - {id};
      return true;
    }

    /**
     The locked loop of reapOnce, for any order of Go's map iteration. The result does not depend
     on the order, and the victims are exactly the doomed entries, each once.
     */
    method ScanLocked(cutoff: int) returns (victims: seq<Session>)
      requires Valid()
      modifies this`sessions, this`lastRefresh
      ensures Valid()
      ensures Abs() == Swept(old(Abs()), cutoff)
      ensures AreVictims(victims, old(sessions), old(Abs()), cutoff, old(sessions).Keys)
    {
      victims := [];
      var todo := sessions.Keys;
      ghost var before := Abs();
      ghost var entries := sessions;
      ghost var done: set<string> := {};
      assert Abs() == SweptPart(before, cutoff, done);
      while todo != {}
        invariant Valid() && before.sessions.Keys == entries.Keys
        invariant todo <= entries.Keys && done == entries.Keys - todo
        invariant Abs() == SweptPart(before, cutoff, done)
        invariant forall id <- todo :: id in sessions && sessions[id] == entries[id]
        invariant AreVictims(victims, entries, before, cutoff, done)
        decreases todo
      {
        var id :| id in todo;
        var sess := sessions[id];
        SweptPartStep(before, cutoff, done, id);
        OneMoreVictim(victims, entries, before, cutoff, done, id);
        var victim := VisitLocked(id, cutoff);
        if victim {
          victims := victims + [sess];
        }
        DoneGrows(entries.Keys, todo, id);
        todo, done := todo - {id}, done + {id};
      }
      SweptAll(before, cutoff, done);
    }

    /**
     The unlocked loop of reapOnce. `outcomes` holds what backend.Delete answers to each call;
     a failed call is counted and does not stop the loop.
     */
    method DeleteVictims(victims: seq<Session>, outcomes: seq<bool>) returns (attempts: seq<string>, failures: nat)
      requires |outcomes| == |victims|
      ensures |attempts| == |victims|
      ensures forall k :: 0 <= k < |victims| ==> attempts[k] == victims[k].id
      ensures failures == multiset(outcomes)[false]
    {
      attempts, failures := [], 0;
      for k := 0 to |victims|
        invariant |attempts| == k
        invariant forall j :: 0 <= j < k ==> attempts[j] == victims[j].id
        invariant failures == multiset(outcomes[..k])[false]
      {
        assert outcomes[..k + 1] == outcomes[..k] + [outcomes[k]];
        attempts := attempts + [victims[k].id];
        if !outcomes[k] {
          failures := failures + 1;
          continue;
        }
      }
      assert outcomes[..|victims|] == outcomes;
    }

    /** The locked loop of Reconcile over the listed ids. */
    method ReconcileLocked(ids: seq<string>, now: int)
      requires Valid()
      modifies this`sessions, this`all
      ensures Valid()
      ensures Abs() == ReconcileAll(old(Abs()), ids, now)
    {
      for k := 0 to |ids|
        invariant Valid()
        invariant Abs() == ReconcileAll(old(Abs()), ids[..k], now)
      {
        ReconcileSnoc(old(Abs()), ids[..k], ids[k], now);
        assert ids[..k + 1] == ids[..k] + [ids[k]];
        if ids[k] !in sessions {
          var _ := Install(ids[k], now);
        }
      }
      assert ids[..|ids|] == ids;
    }
  }
}
