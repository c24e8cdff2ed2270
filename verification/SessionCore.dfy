/**
 The data a session manager guards, as a value, and one function for each section of
 internal/session/session.go that runs with the mutex held.

 A session object is named by its serial number: its index in `recs`, the sequence of all
 sessions ever allocated. Pointer comparison in the source is comparison of serial numbers here.
 */
module SessionCore {
  import opened Common

  type Sid = nat

  const REFRESH_COOLDOWN: int := 2 * SECOND

  /** The fields of a Session object. `ready` stands for the closed channel. */
  datatype Rec = Rec(id: string, created: int, lastActive: int, conns: int,
                     endpoint: Endpoint, err: Option<string>, ready: bool)
  {
    /** What a waiter sees on a session whose Ensure succeeded. */
    predicate Good() {
      ready && err.None?
    }

    /** What a waiter sees on a session whose Ensure failed. */
    predicate Broken() {
      ready && err.Some?
    }
  }

  datatype Core = Core(recs: seq<Rec>, sessions: map<string, Sid>, lastRefresh: map<string, int>)

  const EMPTY := Core([], map[], map[])

  function NewRec(id: string, now: int): Rec {
    Rec(id, now, now, 0, ZERO_ENDPOINT, None, false)
  }

  /** Allocates a session for `id` and puts it in the map. */
  function Create(c: Core, id: string, now: int): Core {
    Core(c.recs + [NewRec(id, now)], c.sessions[id := |c.recs|], c.lastRefresh)
  }

  /** The session is the map entry under its own id. */
  predicate InMap(c: Core, sid: Sid) {
    && sid < |c.recs|
    && c.recs[sid].id in c.sessions
    && c.sessions[c.recs[sid].id] == sid
  }

  /** The first locked section of Get. */
  function GetEnter(c: Core, id: string, now: int): (Core, Sid) {
    if id in c.sessions then (c, c.sessions[id]) else (Create(c, id, now), |c.recs|)
  }

  /** The second locked section of Get: compare, then delete. */
  function DropFailed(c: Core, id: string, sid: Sid): Core {
    if id in c.sessions && c.sessions[id] == sid then c.(sessions := c.sessions - {id}) else c
  }

  predicate CoolingDown(c: Core, id: string, now: int) {
    id in c.lastRefresh && now - c.lastRefresh[id] < REFRESH_COOLDOWN
  }

  /** The locked section of Refresh past the cooldown test. */
  function RefreshDrop(c: Core, id: string, stale: Sid, now: int): Core {
    DropFailed(c, id, stale).(lastRefresh := c.lastRefresh[id := now])
  }

  /** The test the reaper applies to one map entry. */
  predicate Reapable(r: Rec, cutoff: int) {
    r.ready && r.conns <= 0 && r.lastActive <= cutoff
  }

  predicate Doomed(c: Core, id: string, cutoff: int)
  {
    id in c.sessions && c.sessions[id] < |c.recs| && Reapable(c.recs[c.sessions[id]], cutoff)
  }

  /** The reaper's loop body for one map entry. */
  function ReapVisit(c: Core, id: string, cutoff: int): Core {
    if Doomed(c, id, cutoff) then
      c.(sessions := c.sessions - {id}, lastRefresh := c.lastRefresh - {id})
    else
      c
  }

  /** Reconcile's loop body for one listed id. */
  function ReconcileOne(c: Core, id: string, at: int): Core {
    if id in c.sessions then c else Create(c, id, at)
  }

  /** Reconcile's whole loop. */
  function ReconcileAll(c: Core, ids: seq<string>, at: int): Core
    decreases |ids|
  {
    if ids == [] then c else ReconcileAll(ReconcileOne(c, ids[0], at), ids[1..], at)
  }

  // Unlocked accesses to one session object.

  function Touch(c: Core, sid: Sid, now: int): Core
    requires sid < |c.recs|
  {
    c.(recs := c.recs[sid := c.recs[sid].(lastActive := now)])
  }

  function AddConn(c: Core, sid: Sid, d: int): Core
    requires sid < |c.recs|
  {
    c.(recs := c.recs[sid := c.recs[sid].(conns := c.recs[sid].conns + d)])
  }

  /** The result of one backend.Ensure call. */
  datatype Outcome = Success(endpoint: Endpoint) | Failure(err: string)

  /** Resolve's writes before it closes the channel. */
  function Publish(c: Core, sid: Sid, o: Outcome): Core
    requires sid < |c.recs|
  {
    match o
    case Success(ep) => c.(recs := c.recs[sid := c.recs[sid].(endpoint := ep)])
    case Failure(e) => c.(recs := c.recs[sid := c.recs[sid].(err := Some(e))])
  }

  function CloseReady(c: Core, sid: Sid): Core
    requires sid < |c.recs|
  {
    c.(recs := c.recs[sid := c.recs[sid].(ready := true)])
  }

  // ---------------------------------------------------------------- whole scans and listings

  /** Every map value is an allocated session filed under its own id. */
  predicate WellFormed(c: Core) {
    forall id <- c.sessions :: c.sessions[id] < |c.recs| && c.recs[c.sessions[id]].id == id
  }

  function ReapVisits(c: Core, order: seq<string>, cutoff: int): Core
    decreases |order|
  {
    if order == [] then c else ReapVisits(ReapVisit(c, order[0], cutoff), order[1..], cutoff)
  }

  /** What a whole scan leaves behind, said without any order. */
  function Swept(c: Core, cutoff: int): Core {
    Core(c.recs,
         map id | id in c.sessions && !Doomed(c, id, cutoff) :: c.sessions[id],
         map id | id in c.lastRefresh && !Doomed(c, id, cutoff) :: c.lastRefresh[id])
  }

  /** What visiting the ids of `done` leaves behind. */
  function SweptPart(c: Core, cutoff: int, done: set<string>): Core {
    Core(c.recs,
         map id | id in c.sessions && !(id in done && Doomed(c, id, cutoff)) :: c.sessions[id],
         map id | id in c.lastRefresh && !(id in done && Doomed(c, id, cutoff)) :: c.lastRefresh[id])
  }

  lemma SweptPartStep(c: Core, cutoff: int, done: set<string>, id: string)
    requires id in c.sessions && id !in done
    ensures Doomed(SweptPart(c, cutoff, done), id, cutoff) == Doomed(c, id, cutoff)
    ensures ReapVisit(SweptPart(c, cutoff, done), id, cutoff) == SweptPart(c, cutoff, done + {id})
  {
    var p := SweptPart(c, cutoff, done);
    var q := SweptPart(c, cutoff, done + {id});
    assert id in p.sessions && p.sessions[id] == c.sessions[id];
    if Doomed(c, id, cutoff) {
      assert ReapVisit(p, id, cutoff).sessions == q.sessions;
      assert ReapVisit(p, id, cutoff).lastRefresh == q.lastRefresh;
    } else {
      assert p.sessions == q.sessions;
      assert p.lastRefresh == q.lastRefresh;
    }
  }

  lemma SweptAll(c: Core, cutoff: int, done: set<string>)
    requires c.sessions.Keys <= done
    ensures SweptPart(c, cutoff, done) == Swept(c, cutoff)
  {
    assert SweptPart(c, cutoff, done).sessions == Swept(c, cutoff).sessions;
    forall id | id in c.lastRefresh
      ensures (id in done && Doomed(c, id, cutoff)) == Doomed(c, id, cutoff)
    {
    }
    assert SweptPart(c, cutoff, done).lastRefresh == Swept(c, cutoff).lastRefresh;
  }

  lemma {:induction false} ReapVisitsFrom(c: Core, cutoff: int, done: set<string>, order: seq<string>)
    requires forall i, j :: 0 <= i < j < |order| ==> order[i] != order[j]
    requires forall id <- order :: id in c.sessions && id !in done
    ensures ReapVisits(SweptPart(c, cutoff, done), order, cutoff)
         == SweptPart(c, cutoff, done + (set id | id in order))
    decreases |order|
  {
    if order == [] {
      assert done + (set id | id in order) == done;
    } else {
      SweptPartStep(c, cutoff, done, order[0]);
      ReapVisitsFrom(c, cutoff, done + {order[0]}, order[1..]);
      assert done + {order[0]} + (set id | id in order[1..]) == done + (set id | id in order);
    }
  }

  /** The scan's result does not depend on the order in which Go's map iteration yields the entries. */
  lemma ScanOrderIrrelevant(c: Core, cutoff: int, order: seq<string>)
    requires forall i, j :: 0 <= i < j < |order| ==> order[i] != order[j]
    requires forall id :: id in order <==> id in c.sessions
    ensures ReapVisits(c, order, cutoff) == Swept(c, cutoff)
  {
    assert SweptPart(c, cutoff, {}) == c;
    ReapVisitsFrom(c, cutoff, {}, order);
    SweptAll(c, cutoff, {} + (set id | id in order));
  }

  /** The new sessions of one listing: each distinct id that has no entry yet, at its first position. */
  function Fresh(c: Core, ids: seq<string>): (r: seq<string>)
    ensures forall id <- r :: id in ids && id !in c.sessions
    ensures forall id <- ids :: id in c.sessions || id in r
    ensures forall i, j :: 0 <= i < j < |r| ==> r[i] != r[j]
    decreases |ids|
  {
    if ids == [] then []
    else
      var front := Fresh(c, ids[..|ids| - 1]);
      var last := ids[|ids| - 1];
      assert ids == ids[..|ids| - 1] + [last];
      if last in c.sessions || last in front then front else front + [last]
  }

  lemma {:induction false} ReconcileSnoc(c: Core, ids: seq<string>, id: string, at: int)
    ensures ReconcileAll(c, ids + [id], at) == ReconcileOne(ReconcileAll(c, ids, at), id, at)
    decreases |ids|
  {
    if ids == [] {
      assert [id][1..] == [];
    } else {
      assert (ids + [id])[0] == ids[0] && (ids + [id])[1..] == ids[1..] + [id];
      ReconcileSnoc(ReconcileOne(c, ids[0], at), ids[1..], id, at);
    }
  }

  /** `d` is `c` plus one fresh session for each id of `f`, in order, and nothing else. */
  predicate Extends(c: Core, d: Core, f: seq<string>, at: int) {
    && d.lastRefresh == c.lastRefresh
    && d.recs == c.recs + seq(|f|, k requires 0 <= k < |f| => NewRec(f[k], at))
    && d.sessions.Keys == c.sessions.Keys + (set id | id in f)
    && (forall id <- c.sessions :: id in d.sessions && d.sessions[id] == c.sessions[id])
    && (forall k :: 0 <= k < |f| ==> f[k] in d.sessions && d.sessions[f[k]] == |c.recs| + k)
  }

  lemma ExtendsByOne(c: Core, d: Core, f: seq<string>, id: string, at: int)
    requires Extends(c, d, f, at) && id !in d.sessions
    ensures Extends(c, Create(d, id, at), f + [id], at)
  {
    var e, g := Create(d, id, at), f + [id];
    assert e.recs == c.recs + seq(|g|, k requires 0 <= k < |g| => NewRec(g[k], at));
    assert (set x | x in g) == (set x | x in f) + {id};
    forall k | 0 <= k < |g|
      ensures g[k] in e.sessions && e.sessions[g[k]] == |c.recs| + k
    {
      if k < |f| { assert g[k] == f[k] && f[k] in d.sessions; }
    }
  }

  /**
   A reconciliation allocates exactly one session for each distinct listed id without an entry,
   and leaves every existing session, entry and refresh time as it was.
   */
  lemma {:induction false} ReconcileAddsExactly(c: Core, ids: seq<string>, at: int)
    ensures Extends(c, ReconcileAll(c, ids, at), Fresh(c, ids), at)
    decreases |ids|
  {
    if ids == [] {
      assert Fresh(c, ids) == [];
      assert (set id | id in Fresh(c, ids)) == {};
    } else {
      var front, last := ids[..|ids| - 1], ids[|ids| - 1];
      assert ids == front + [last];
      ReconcileAddsExactly(c, front, at);
      ReconcileSnoc(c, front, last, at);
      var d := ReconcileAll(c, front, at);
      assert last in d.sessions <==> last in c.sessions || last in Fresh(c, front);
      if last !in d.sessions {
        ExtendsByOne(c, d, Fresh(c, front), last, at);
      }
    }
  }
}
