/** What the session manager guarantees in every reachable state and over every run. */
module SessionTheorems {
  import opened Common
  import opened SessionCore
  import opened SessionProtocol
  import opened SessionShape
  import opened SessionLedger
  import opened SessionEvents

  ghost predicate Inv(ttl: int, s: System) {
    && Shape(s)
    && Conserved(s)
    && DroppedOnce(s)
    && CallsMatch(s)
    && ClosedOnce(s)
    && DeletesMatch(s)
    && ConnsMatch(s)
    && CutoffOk(ttl, s)
    && EventsOk(ttl, s)
    && Spaced(s.hist, Refreshed, Gap(ttl, Refreshed))
    && Spaced(s.hist, Reaped, Gap(ttl, Reaped))
  }

  lemma InitialInv(ttl: int)
    ensures Inv(ttl, INITIAL)
  {
  }

  lemma StepKeepsBooks(ttl: int, s: System, step: Step)
    requires Enabled(s, step) && Shape(s)
    requires Conserved(s) && DroppedOnce(s) && CallsMatch(s) && ClosedOnce(s) && DeletesMatch(s)
    ensures var t := Apply(ttl, s, step);
      Conserved(t) && DroppedOnce(t) && CallsMatch(t) && ClosedOnce(t) && DeletesMatch(t)
  {
    var t, ch, call := Apply(ttl, s, step), ChangeOf(s, step), CallEvents(s, step);
    StepKeepsShape(ttl, s, step);
    StepSummary(ttl, s, step);
    StepMovesResolvers(ttl, s, step);
    StepMovesReaper(ttl, s, step);
    KeepsConserved(s, t, ch, call);
    KeepsDroppedOnce(s, t, ch, call);
    KeepsCallsMatch(s, t, step);
    KeepsClosedOnce(s, t, step);
    KeepsDeletesMatch(s, t, step);
  }

  lemma StepKeepsInv(ttl: int, s: System, step: Step)
    requires Inv(ttl, s) && Enabled(s, step)
    ensures Inv(ttl, Apply(ttl, s, step))
  {
    StepKeepsShape(ttl, s, step);
    StepKeepsBooks(ttl, s, step);
    StepKeepsConnsMatch(ttl, s, step);
    StepKeepsCutoffOk(ttl, s, step);
    StepKeepsEventsOk(ttl, s, step);
    StepKeepsSpaced(ttl, s, step, Refreshed);
    StepKeepsSpaced(ttl, s, step, Reaped);
  }

  /** Every change of the map that was noted since the first `n` events happened between `a` and `b`. */
  predicate Timely(h: seq<Event>, n: nat, a: int, b: int) {
    forall k :: n <= k < |h| && IsMapEvent(h[k]) ==> a <= h[k].at <= b
  }

  /** What any stretch of a run preserves about the sessions that existed at its start. */
  predicate Evolves(s: System, t: System) {
    && s.now <= t.now
    && RecsAdvance(s.core, t.core)
    && s.hist <= t.hist
    && Timely(t.hist, |s.hist|, s.now, t.now)
    && (forall sid: Sid :: sid < |s.core.recs| && InMap(t.core, sid) ==> InMap(s.core, sid))
  }

  lemma StepIsTimely(ttl: int, s: System, step: Step)
    requires Enabled(s, step)
    ensures var t := Apply(ttl, s, step); s.now <= t.now && s.hist <= t.hist && Timely(t.hist, |s.hist|, s.now, t.now)
  {
    var t := Apply(ttl, s, step);
    NoMapEvents(s, step);
    forall k | |s.hist| <= k < |t.hist| && IsMapEvent(t.hist[k]) ensures t.hist[k].at == s.now {
      var e := t.hist[k];
      assert e in Events(s, step);
    }
  }

  lemma NoMapEvents(s: System, step: Step)
    requires Enabled(s, step)
    ensures forall e <- CallEvents(s, step) :: !IsMapEvent(e)
  {
  }

  lemma StepEvolves(ttl: int, s: System, step: Step)
    requires Shape(s) && Enabled(s, step)
    ensures Evolves(s, Apply(ttl, s, step))
  {
    var t := Apply(ttl, s, step);
    StepKeepsShape(ttl, s, step);
    StepSummary(ttl, s, step);
    StepIsTimely(ttl, s, step);
    forall sid: Sid | sid < |s.core.recs| && InMap(t.core, sid) ensures InMap(s.core, sid) {
      if !InMap(s.core, sid) { GoneStaysGone(s.core, t.core, ChangeOf(s, step), sid); }
    }
  }

  lemma EvolvesTransitive(s: System, t: System, u: System)
    requires Evolves(s, t) && Evolves(t, u)
    ensures Evolves(s, u)
  {
    forall sid | 0 <= sid < |s.core.recs| ensures Advances(s.core.recs[sid], u.core.recs[sid]) {
      assert Advances(s.core.recs[sid], t.core.recs[sid]);
    }
    forall k | |s.hist| <= k < |u.hist| && IsMapEvent(u.hist[k]) ensures s.now <= u.hist[k].at <= u.now {
      if k < |t.hist| { assert u.hist[k] == t.hist[k]; }
    }
  }

  lemma {:induction false} RunKeepsInv(ttl: int, s: System, steps: seq<Step>)
    requires Inv(ttl, s) && Run(ttl, s, steps).Some?
    ensures Inv(ttl, Run(ttl, s, steps).value) && Evolves(s, Run(ttl, s, steps).value)
    decreases |steps|
  {
    if steps != [] {
      StepKeepsInv(ttl, s, steps[0]);
      StepEvolves(ttl, s, steps[0]);
      RunKeepsInv(ttl, Apply(ttl, s, steps[0]), steps[1..]);
      EvolvesTransitive(s, Apply(ttl, s, steps[0]), Run(ttl, s, steps).value);
    }
  }

  lemma ReachableInv(ttl: int, t: System)
    requires Reachable(ttl, t)
    ensures Inv(ttl, t)
  {
    InitialInv(ttl);
    var steps :| Run(ttl, INITIAL, steps) == Some(t);
    RunKeepsInv(ttl, INITIAL, steps);
  }

  lemma ReachesEvolves(ttl: int, s: System, t: System)
    requires Reachable(ttl, s) && Reaches(ttl, s, t)
    ensures Inv(ttl, s) && Inv(ttl, t) && Evolves(s, t)
  {
    ReachableInv(ttl, s);
    var steps :| Run(ttl, s, steps) == Some(t);
    RunKeepsInv(ttl, s, steps);
  }

  // ---------------------------------------------------------------- single flight

  predicate InFlight(s: System, sid: Sid) {
    sid < |s.resolvers| && s.resolvers[sid].Calling?
  }

  /**
   At most one Ensure runs per id, in every interleaving: two sessions of one id that are both
   unresolved are the same session, and it is the map entry.
   */
  lemma SingleFlight(ttl: int, t: System, a: Sid, b: Sid)
    requires Reachable(ttl, t)
    requires a < |t.core.recs| && b < |t.core.recs| && t.core.recs[a].id == t.core.recs[b].id
    ensures !t.core.recs[a].ready ==> InMap(t.core, a)
    ensures !t.core.recs[a].ready && !t.core.recs[b].ready ==> a == b
    ensures InFlight(t, a) && InFlight(t, b) ==> a == b
  {
    ReachableInv(ttl, t);
    assert ResolverAgrees(t.core.recs[a], t.resolvers[a]) && ResolverAgrees(t.core.recs[b], t.resolvers[b]);
  }

  /** Every path that takes a session out of the map takes a ready one, and a handler only the one it holds. */
  lemma OnlyReadySessionsLeave(ttl: int, s: System, step: Step, sid: Sid)
    requires Reachable(ttl, s) && Enabled(s, step)
    requires InMap(s.core, sid) && !InMap(Apply(ttl, s, step).core, sid)
    ensures s.core.recs[sid].ready
    ensures step.DropFail? || step.Refresh? || step.Visit?
    ensures step.DropFail? ==> s.handlers[step.h].pc.sid == sid && s.core.recs[sid].Broken()
    ensures step.Refresh? ==> s.handlers[step.h].pc.sid == sid && s.core.recs[sid].Good()
  {
    ReachableInv(ttl, s);
    StepSummary(ttl, s, step);
    LeaversAreReady(s, Apply(ttl, s, step).core, step, sid);
  }

  lemma LeaversAreReady(s: System, d: Core, step: Step, sid: Sid)
    requires Shape(s) && Enabled(s, step) && Changed(s.core, d, ChangeOf(s, step)) && RecsAdvance(s.core, d)
    requires InMap(s.core, sid) && !InMap(d, sid)
    ensures s.core.recs[sid].ready
    ensures step.DropFail? || step.Refresh? || step.Visit?
    ensures step.DropFail? ==> s.handlers[step.h].pc.sid == sid && s.core.recs[sid].Broken()
    ensures step.Refresh? ==> s.handlers[step.h].pc.sid == sid && s.core.recs[sid].Good()
  {
    assert Advances(s.core.recs[sid], d.recs[sid]);
    OnlyReadyLeave(s, step);
    if step.DropFail? || step.Refresh? { assert HandlerOk(s.core, s.handlers[step.h]); }
  }

  /** The steps that hold the mutex and may write to the map or the refresh times. */
  predicate WritesMap(step: Step) {
    step.Enter? || step.DropFail? || step.Refresh? || step.Visit? || step.ReconOne?
  }

  /**
   No other stretch of a run changes the map or the refresh times, however long: not cancelled Gets,
   resolvers, tunnels, or the Delete calls of the reaper.
   */
  lemma {:induction false} OnlyLockedSectionsTouchTheMap(ttl: int, s: System, steps: seq<Step>)
    requires Run(ttl, s, steps).Some? && forall step <- steps :: !WritesMap(step)
    ensures var t := Run(ttl, s, steps).value;
      t.core.sessions == s.core.sessions && t.core.lastRefresh == s.core.lastRefresh && |t.core.recs| == |s.core.recs|
    decreases |steps|
  {
    if steps != [] {
      var step := steps[0];
      assert step in steps;
      if HandlerEnabled(s, step) { HandlerMaps(s, step); } else { OtherMaps(ttl, s, step); }
      OnlyLockedSectionsTouchTheMap(ttl, Apply(ttl, s, step), steps[1..]);
    }
  }

  lemma HandlerMaps(s: System, step: Step)
    requires HandlerEnabled(s, step) && !WritesMap(step)
    ensures var c := HandlerAct(s, step).core;
      c.sessions == s.core.sessions && c.lastRefresh == s.core.lastRefresh && |c.recs| == |s.core.recs|
  {
  }

  lemma OtherMaps(ttl: int, s: System, step: Step)
    requires OtherEnabled(s, step) && !WritesMap(step)
    ensures var c := OtherAct(ttl, s, step).core;
      c.sessions == s.core.sessions && c.lastRefresh == s.core.lastRefresh && |c.recs| == |s.core.recs|
  {
  }

  // ---------------------------------------------------------------- conservation

  /**
   Sessions created for an id = dropped after failure + dropped by Refresh + reaped + the one in the
   map. Each has had its single Ensure call, but for the entry whose resolver has not started.
   */
  lemma SessionsAreConserved(ttl: int, t: System, id: string)
    requires Reachable(ttl, t)
    ensures Count(OfCreated(id), t.hist) == Drops(id, t.hist) + Bit(id in t.core.sessions)
    ensures Count(OfCalled(id), t.hist) == Drops(id, t.hist) + Bit(id in t.core.sessions && !AboutToCall(t, id))
  {
    ReachableInv(ttl, t);
    assert ConservedFor(t, id);
  }

  /** A session out of the map never comes back, and each session leaves at most once, by one path. */
  lemma NoResurrection(ttl: int, s: System, t: System, sid: Sid)
    requires Reachable(ttl, s) && Reaches(ttl, s, t) && sid < |s.core.recs|
    ensures !InMap(s.core, sid) ==> !InMap(t.core, sid)
    ensures Count(OfDropOf(sid), t.hist) == Bit(!InMap(t.core, sid))
  {
    ReachesEvolves(ttl, s, t);
  }

  // ---------------------------------------------------------------- publication

  lemma {:induction false} CountWitness(q: Query, h: seq<Event>) returns (e: Event)
    requires Count(q, h) > 0
    ensures e in h && Matches(q, e)
    decreases |h|
  {
    if Matches(q, h[|h| - 1]) {
      e := h[|h| - 1];
    } else {
      e := CountWitness(q, h[..|h| - 1]);
    }
  }

  /** A channel is closed once, and from then on the session's result never changes. */
  lemma PublishedOnce(ttl: int, s: System, t: System, sid: Sid)
    requires Reachable(ttl, s) && Reaches(ttl, s, t) && sid < |s.core.recs|
    ensures sid < |t.core.recs| && t.core.recs[sid].id == s.core.recs[sid].id
    ensures s.core.recs[sid].ready ==>
      var r, q := s.core.recs[sid], t.core.recs[sid]; q.ready && q.endpoint == r.endpoint && q.err == r.err
    ensures Count(OfClosed(sid), t.hist) == Bit(t.core.recs[sid].ready)
    ensures Count(OfResolved(sid), t.hist) <= 1
  {
    ReachesEvolves(ttl, s, t);
    assert Advances(s.core.recs[sid], t.core.recs[sid]);
    assert ResolverAgrees(t.core.recs[sid], t.resolvers[sid]);
  }

  function AsOutcome(res: GetResult): Outcome
    requires !res.GotCancelled?
  {
    match res
    case GotSession(ep) => Success(ep)
    case GotError(err) => Failure(err)
  }

  /** Every Get(id) that is not cancelled returns what the one Ensure call of its session, for that id, produced. */
  lemma GetReturnsEnsured(ttl: int, t: System, e: Event)
    requires Reachable(ttl, t) && e in t.hist && e.GetReturned? && !e.res.GotCancelled?
    ensures e.sid < |t.core.recs| && t.core.recs[e.sid].id == e.id && t.core.recs[e.sid].ready
    ensures Resolved(e.sid, AsOutcome(e.res)) in t.hist
    ensures forall o :: Resolved(e.sid, o) in t.hist ==> o == AsOutcome(e.res)
  {
    ReachableInv(ttl, t);
    assert EventOk(ttl, t, e);
    assert ResolverAgrees(t.core.recs[e.sid], t.resolvers[e.sid]);
    assert Count(OfResolved(e.sid), t.hist) == 1;
    var r := CountWitness(OfResolved(e.sid), t.hist);
    assert EventOk(ttl, t, r);
    forall o | Resolved(e.sid, o) in t.hist ensures o == AsOutcome(e.res) {
      assert EventOk(ttl, t, Resolved(e.sid, o));
    }
  }

  /** All waiters on one session that are not cancelled agree. */
  lemma WaitersAgree(ttl: int, t: System, e: Event, f: Event)
    requires Reachable(ttl, t) && e in t.hist && f in t.hist && e.GetReturned? && f.GetReturned? && e.sid == f.sid
    requires !e.res.GotCancelled? && !f.res.GotCancelled?
    ensures e.res == f.res && e.id == f.id
  {
    ReachableInv(ttl, t);
    assert EventOk(ttl, t, e) && EventOk(ttl, t, f);
  }

  /**
   A handler that sends requests, or is inside a tunnel, holds a session of its own id, also if the cooldown
   branch gave it; and if that session is good, its endpoint is what Ensure returned for that very session.
   */
  lemma HandlersStayWithTheirId(ttl: int, t: System, h: nat)
    requires Reachable(ttl, t) && h < |t.handlers|
    requires var pc := t.handlers[h].pc; pc.Got? || pc.Serving? || pc.Opening? || pc.Tunnelling? || pc.Leaving?
    ensures var sid := t.handlers[h].pc.sid;
      && sid < |t.core.recs| && t.core.recs[sid].id == t.handlers[h].id
      && (t.core.recs[sid].Good() ==> Resolved(sid, Success(t.core.recs[sid].endpoint)) in t.hist)
    ensures var pc := t.handlers[h].pc;
      pc.Got? || (pc.Serving? && pc.orig.None?) ==> t.core.recs[pc.sid].Good()
  {
    ReachableInv(ttl, t);
    assert HandlerOk(t.core, t.handlers[h]);
    var sid := t.handlers[h].pc.sid;
    assert forall e <- t.hist :: EventOk(ttl, t, e);
    if t.core.recs[sid].Good() { GoodIsEnsured(t, sid); }
  }

  lemma GoodIsEnsured(t: System, sid: Sid)
    requires Shape(t) && ClosedOnce(t) && sid < |t.core.recs| && t.core.recs[sid].Good()
    requires forall e <- t.hist :: e.Resolved? ==> HasResult(t, e.sid) && t.resolvers[e.sid].o == e.o
    ensures Resolved(sid, Success(t.core.recs[sid].endpoint)) in t.hist
  {
    assert ResolverAgrees(t.core.recs[sid], t.resolvers[sid]);
    assert Count(OfResolved(sid), t.hist) == 1;
    var r := CountWitness(OfResolved(sid), t.hist);
  }

  // ---------------------------------------------------------------- the reaper

  /**
   A visited entry goes exactly when it is ready, no handler is inside a tunnel on it and it was last
   active at or before the cutoff; every recorded activity on it is then at least one TTL old.
   */
  lemma ReapIsExact(ttl: int, s: System, id: string)
    requires Reachable(ttl, s) && Enabled(s, Visit(id))
    ensures id in s.core.sessions && s.core.sessions[id] < |s.core.recs|
    ensures var sid := s.core.sessions[id]; var r := s.core.recs[sid];
      && (id !in Apply(ttl, s, Visit(id)).core.sessions
          <==> r.ready && Tunnels(s.handlers, sid) == 0 && r.lastActive <= s.reaper.cutoff)
      && (id !in Apply(ttl, s, Visit(id)).core.sessions ==>
            s.now - r.lastActive >= ttl && forall at :: Marked(sid, at) in s.hist ==> s.now - at >= ttl)
  {
    ReachableInv(ttl, s);
    var sid := s.core.sessions[id];
    assert Tunnels(s.handlers, sid) == s.core.recs[sid].conns;
    forall at | Marked(sid, at) in s.hist ensures at <= s.core.recs[sid].lastActive {
      assert EventOk(ttl, s, Marked(sid, at));
    }
  }

  /** Only reaped sessions are deleted, and each victim gets one Delete call, whatever earlier calls returned. */
  lemma EachVictimDeletedOnce(ttl: int, t: System, sid: Sid)
    requires Reachable(ttl, t)
    ensures Count(OfDelete(sid), t.hist) <= Count(OfReap(sid), t.hist) <= Count(OfDropOf(sid), t.hist) <= 1
    ensures t.reaper.Sleeping? || t.reaper.Primed? ==> Count(OfDelete(sid), t.hist) == Count(OfReap(sid), t.hist)
  {
    ReachableInv(ttl, t);
    ReapsAreDrops(t.hist, sid);
  }

  lemma {:induction false} ReapsAreDrops(h: seq<Event>, sid: Sid)
    ensures Count(OfReap(sid), h) <= Count(OfDropOf(sid), h)
    decreases |h|
  {
    if h != [] { ReapsAreDrops(h[..|h| - 1], sid); }
  }

  /** The counter of a session is the number of handlers inside a tunnel on it. */
  lemma ActiveConnsAreTunnels(ttl: int, t: System, sid: Sid)
    requires Reachable(ttl, t) && sid < |t.core.recs|
    ensures t.core.recs[sid].conns == Tunnels(t.handlers, sid)
  {
    ReachableInv(ttl, t);
    assert Tunnels(t.handlers, sid) == t.core.recs[sid].conns;
  }
}
