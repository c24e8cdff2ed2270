/**
 How often Refresh asks for Ensure. The comments on refreshCooldown and Refresh promise that the cooldown
 bounds it. But inside the cooldown Refresh goes on to Get when the map has no entry, and a failed Ensure
 removes the entry: then every holder of a stale session asks once more, at any rate. What bounds the
 calls is the number of drops; only those after failed Ensures are not bounded by time.
 */
module SessionRefresh {
  import opened Common
  import opened SessionCore
  import opened SessionProtocol
  import opened SessionShape
  import opened SessionLedger
  import opened SessionEvents
  import opened SessionTheorems
  import opened SessionRuns
  import opened SessionCooldown

  // ---------------------------------------------------------------- when one Refresh asks

  predicate ActsFor(step: Step, h: nat) {
    match step
    case Enter(k) => k == h
    case SeeReady(k) => k == h
    case Cancel(k) => k == h
    case DropFail(k) => k == h
    case Mark(k) => k == h
    case Refresh(k) => k == h
    case Open(k) => k == h
    case Shut(k) => k == h
    case End(k) => k == h
    case _ => false
  }

  lemma OtherLeavesHandler(ttl: int, s: System, step: Step, h: nat)
    requires Enabled(s, step) && h < |s.handlers| && !ActsFor(step, h)
    ensures h < |Act(ttl, s, step).handlers| && Act(ttl, s, step).handlers[h] == s.handlers[h]
  {
  }

  lemma {:induction false} OthersLeaveHandler(ttl: int, s: System, steps: seq<Step>, h: nat)
    requires Run(ttl, s, steps).Some? && h < |s.handlers| && forall step <- steps :: !ActsFor(step, h)
    ensures h < |Run(ttl, s, steps).value.handlers| && Run(ttl, s, steps).value.handlers[h] == s.handlers[h]
    decreases |steps|
  {
    if steps != [] {
      OtherLeavesHandler(ttl, s, steps[0], h);
      OthersLeaveHandler(ttl, Apply(ttl, s, steps[0]), steps[1..], h);
    }
  }

  /** Handler `h` takes Get's lock next and creates a session, with its Ensure call, on behalf of Refresh. */
  predicate Asks(s: System, h: nat) {
    Enabled(s, Enter(h)) && Creation(s.handlers[h].id, true) == ChangeOf(s, Enter(h))
  }

  lemma AfterRefresh(ttl: int, s: System, h: nat)
    requires Shape(s) && Enabled(s, Refresh(h))
    ensures var id := s.handlers[h].id; var stale := PcOf(s, h).sid; var t := Apply(ttl, s, Refresh(h));
      var cooling := CoolingDown(s.core, id, s.now);
      && (cooling ==> t.core == s.core)
      && |t.handlers| == |s.handlers|
      && t.handlers[h] == Handler(id, s.handlers[h].ws, if cooling && id in s.core.sessions
                                                        then Serving(s.core.sessions[id], Some(stale))
                                                        else Entering(Some(stale)))
  {
    assert HandlerOk(s.core, s.handlers[h]);
  }

  /**
   After a Refresh, and whatever other threads do before its handler goes on, it asks for Ensure exactly
   if it did not find an entry inside the cooldown and Get's own lock finds none either. So inside the
   cooldown Refresh changes nothing, and asks again only when the map has no entry for the id.
   */
  lemma RefreshAsksExactly(ttl: int, s: System, h: nat, steps: seq<Step>, u: System)
    requires Reachable(ttl, s) && Enabled(s, Refresh(h)) && forall step <- steps :: !ActsFor(step, h)
    requires Run(ttl, Apply(ttl, s, Refresh(h)), steps) == Some(u)
    ensures var id := s.handlers[h].id; var cooling := CoolingDown(s.core, id, s.now);
      && (cooling ==> Apply(ttl, s, Refresh(h)).core == s.core)
      && (cooling && id in s.core.sessions ==>
            h < |u.handlers| && PcOf(u, h) == Serving(s.core.sessions[id], Some(PcOf(s, h).sid)))
      && (Asks(u, h) <==> LockFree(u) && !(cooling && id in s.core.sessions) && id !in u.core.sessions)
      && (Asks(u, h) ==> Apply(ttl, u, Enter(h)).hist == u.hist + [Created(|u.core.recs|, id, true, u.now)])
  {
    ReachableInv(ttl, s);
    AfterRefresh(ttl, s, h);
    OthersLeaveHandler(ttl, Apply(ttl, s, Refresh(h)), steps, h);
  }

  // ---------------------------------------------------------------- what bounds the calls

  /** How many events of a kind happened from `s` to `t`. */
  function Since(q: Query, s: System, t: System): int {
    Count(q, t.hist) - Count(q, s.hist)
  }

  lemma {:induction false} RefreshCreationsAreCreations(h: seq<Event>, n: nat, id: string)
    requires n <= |h|
    ensures Count(OfRefreshCreated(id), h) - Count(OfRefreshCreated(id), h[..n])
         <= Count(OfCreated(id), h) - Count(OfCreated(id), h[..n])
    decreases |h|
  {
    if n < |h| {
      RefreshCreationsAreCreations(h[..|h| - 1], n, id);
      assert h[..|h| - 1][..n] == h[..n];
    } else {
      assert h[..n] == h;
    }
  }

  lemma {:induction false} DropsSinceAreWithin(h: seq<Event>, n: nat, id: string, why: Why, a: int, b: int)
    requires n <= |h| && Timely(h, n, a, b)
    ensures Count(OfDropped(id, why), h) - Count(OfDropped(id, why), h[..n]) <= DropsWithin(h, id, why, a, b)
    decreases |h|
  {
    if n < |h| {
      DropsSinceAreWithin(h[..|h| - 1], n, id, why, a, b);
      assert h[..|h| - 1][..n] == h[..n];
    } else {
      assert h[..n] == h;
    }
  }

  lemma DropsSinceAreBounded(ttl: int, s: System, t: System, id: string, why: Why, n: nat)
    requires Reachable(ttl, s) && Reaches(ttl, s, t) && why != FailedEnsure && n < Since(OfDropped(id, why), s, t)
    ensures n * Gap(ttl, why) <= t.now - s.now
  {
    StretchGrows(ttl, s, t);
    DropsSinceAreWithin(t.hist, |s.hist|, id, why, s.now, t.now);
    DropsAreBounded(ttl, t, id, why, s.now, t.now, n);
  }

  lemma StretchGrows(ttl: int, s: System, t: System)
    requires Reachable(ttl, s) && Reaches(ttl, s, t)
    ensures Reachable(ttl, t) && s.now <= t.now && |s.hist| <= |t.hist| && t.hist[..|s.hist|] == s.hist
    ensures Timely(t.hist, |s.hist|, s.now, t.now)
  {
    ReachesEvolves(ttl, s, t);
    ReachesIsReachable(ttl, s, t);
  }

  lemma CreationsSinceAreDrops(ttl: int, s: System, t: System, id: string)
    requires Reachable(ttl, s) && Reaches(ttl, s, t)
    ensures Since(OfRefreshCreated(id), s, t)
         <= Since(OfDropped(id, FailedEnsure), s, t)
          + Since(OfDropped(id, Refreshed), s, t)
          + Since(OfDropped(id, Reaped), s, t)
          + Bit(id in t.core.sessions) - Bit(id in s.core.sessions)
  {
    StretchGrows(ttl, s, t);
    RefreshCreationsAreCreations(t.hist, |s.hist|, id);
    SessionsAreConserved(ttl, s, id);
    SessionsAreConserved(ttl, t, id);
  }

  /**
   Over any stretch of a run, the sessions that Refresh had created for an id, each with one Ensure call,
   are at most the id's drops in that stretch, plus one if it ended with an entry and began without. The
   drops by Refresh and by the reaper are bounded by the length of the stretch; those after a failed
   Ensure are not.
   */
  lemma RefreshLoadIsBounded(ttl: int, s: System, t: System, id: string)
    requires Reachable(ttl, s) && Reaches(ttl, s, t)
    ensures Since(OfRefreshCreated(id), s, t)
         <= Since(OfDropped(id, FailedEnsure), s, t)
          + Since(OfDropped(id, Refreshed), s, t)
          + Since(OfDropped(id, Reaped), s, t)
          + Bit(id in t.core.sessions) - Bit(id in s.core.sessions)
    ensures forall n: nat | n < Since(OfDropped(id, Refreshed), s, t) ::
      n * Min(REFRESH_COOLDOWN, ttl) <= t.now - s.now
    ensures forall n: nat | n < Since(OfDropped(id, Reaped), s, t) :: n * ttl <= t.now - s.now
  {
    CreationsSinceAreDrops(ttl, s, t, id);
    forall n: nat | n < Since(OfDropped(id, Refreshed), s, t) ensures n * Min(REFRESH_COOLDOWN, ttl) <= t.now - s.now {
      DropsSinceAreBounded(ttl, s, t, id, Refreshed, n);
    }
    forall n: nat | n < Since(OfDropped(id, Reaped), s, t) ensures n * ttl <= t.now - s.now {
      DropsSinceAreBounded(ttl, s, t, id, Reaped, n);
    }
  }

  lemma {:induction false} RunAppend(ttl: int, s: System, xs: seq<Step>, ys: seq<Step>)
    requires Run(ttl, s, xs).Some?
    ensures Run(ttl, s, xs + ys) == Run(ttl, Run(ttl, s, xs).value, ys)
    decreases |xs|
  {
    if xs == [] {
      assert xs + ys == ys;
    } else {
      assert (xs + ys)[1..] == xs[1..] + ys;
      RunAppend(ttl, Apply(ttl, s, xs[0]), xs[1..], ys);
    }
  }

  lemma ReachesIsReachable(ttl: int, s: System, t: System)
    requires Reachable(ttl, s) && Reaches(ttl, s, t)
    ensures Reachable(ttl, t)
  {
    var xs :| Run(ttl, INITIAL, xs) == Some(s);
    var ys :| Run(ttl, s, ys) == Some(t);
    RunAppend(ttl, INITIAL, xs, ys);
  }

  // ---------------------------------------------------------------- time does not bound them

  const ID := "a"

  /** `n` handlers hold the one session of the id, which is good, at time zero. */
  predicate Holding(s: System, n: nat) {
    && s.now == 0 && s.reaper.Sleeping? && s.recon.Off?
    && |s.resolvers| == 1 && |s.core.recs| == 1 && s.core.recs[0].Good() && s.core.recs[0].id == ID
    && s.core.sessions == map[ID := 0] && s.core.lastRefresh == map[]
    && Count(OfDropped(ID, Refreshed), s.hist) == 0
    && |s.handlers| == n && forall h :: 0 <= h < n ==> s.handlers[h] == Handler(ID, false, Serving(0, None))
  }

  lemma {:induction false} HoldingReached(ttl: int, n: nat) returns (t: System)
    requires n > 0
    ensures Reachable(ttl, t) && Holding(t, n)
    decreases n
  {
    if n == 1 {
      InitialReachable(ttl);
      t := ServeReached(ttl, INITIAL, ID);
    } else {
      var s := HoldingReached(ttl, n - 1);
      t := JoinReached(ttl, s, ID, 0);
    }
  }

  /** Session 0 is gone and the cooldown runs; after `k` calls for Refresh, handler `k` is about to ask again. */
  predicate Asking(s: System, k: nat, n: nat) {
    && s.now == 0 && s.reaper.Sleeping? && s.recon.Off?
    && |s.resolvers| == |s.core.recs| >= 1 && s.core.recs[0].id == ID
    && ID !in s.core.sessions && s.core.lastRefresh == map[ID := 0]
    && Count(OfRefreshCreated(ID), s.hist) >= k && Count(OfDropped(ID, Refreshed), s.hist) == 1
    && |s.handlers| == n && k < n && s.handlers[k] == Handler(ID, false, Entering(Some(0)))
    && forall h :: k < h < n ==> s.handlers[h] == Handler(ID, false, Serving(0, None))
  }

  lemma {:induction false} CountGrows(q: Query, h: seq<Event>, n: nat)
    requires n <= |h|
    ensures Count(q, h[..n]) <= Count(q, h)
    decreases |h|
  {
    if n < |h| {
      CountGrows(q, h[..|h| - 1], n);
      assert h[..|h| - 1][..n] == h[..n];
    } else {
      assert h[..n] == h;
    }
  }

  /** Handler `k` creates a session, whose Ensure fails. */
  lemma AskOnce(ttl: int, s: System, k: nat, n: nat) returns (t: System)
    requires Reachable(ttl, s) && Asking(s, k, n)
    ensures Reachable(ttl, t) && Quiet(s, t) && Count(OfRefreshCreated(ID), t.hist) >= k + 1
    ensures t.now == 0 && t.reaper.Sleeping? && t.recon.Off? && |t.resolvers| == |t.core.recs| >= 1
    ensures t.core.recs[0].id == ID && ID !in t.core.sessions && t.core.lastRefresh == map[ID := 0]
    ensures |t.handlers| == n && forall h :: k < h < n ==> t.handlers[h] == s.handlers[h]
  {
    var sid := |s.core.recs|;
    var s1 := EnterReached(ttl, s, k, Some(0));
    CountAppend(s.hist, [Created(sid, ID, true, 0)]);
    t := FailedReached(ttl, s1, k, sid);
    assert s1.hist == t.hist[..|s1.hist|];
    CountGrows(OfRefreshCreated(ID), t.hist, |s1.hist|);
  }

  /** The Ensure of a session that a refresher waits for fails, and the refresher takes it out of the map. */
  lemma FailedReached(ttl: int, s: System, k: nat, sid: Sid) returns (t: System)
    requires Reachable(ttl, s) && LockFree(s) && Valid(s, sid) && s.resolvers[sid].Spawned?
    requires k < |s.handlers| && s.handlers[k].pc == Waiting(sid, Some(0)) && Filed(s.core, s.handlers[k].id, sid)
    ensures Reachable(ttl, t) && Quiet(s, t) && s.hist <= t.hist
    ensures t.now == s.now && t.reaper == s.reaper && t.recon == s.recon && |t.resolvers| == |s.resolvers|
    ensures |t.core.recs| == |s.core.recs|
    ensures forall r :: 0 <= r < |s.core.recs| ==> t.core.recs[r].id == s.core.recs[r].id
    ensures t.core.sessions == s.core.sessions - {s.handlers[k].id} && t.core.lastRefresh == s.core.lastRefresh
    ensures |t.handlers| == |s.handlers|
    ensures forall h :: 0 <= h < |s.handlers| && h != k ==> t.handlers[h] == s.handlers[h]
  {
    var s1 := ResolveReached(ttl, s, sid, Failure("unavailable"));
    t := FailReached(ttl, s1, k, sid, 0);
  }

  lemma {:induction false} AskingReached(ttl: int, k: nat, n: nat) returns (t: System)
    requires k < n
    ensures Reachable(ttl, t) && Asking(t, k, n)
    decreases k
  {
    if k == 0 {
      var s := HoldingReached(ttl, n);
      t := RefreshReached(ttl, s, 0, 0, ID);
      CountTwice(s.hist, [Dropped(0, ID, Refreshed, 0)], [Noted(ID, 0)]);
      assert [Dropped(0, ID, Refreshed, 0)] + [Noted(ID, 0)] == [Dropped(0, ID, Refreshed, 0), Noted(ID, 0)];
    } else {
      var s := AskingReached(ttl, k - 1, n);
      var u := AskOnce(ttl, s, k - 1, n);
      t := CoolEmptyReached(ttl, u, k, 0, ID);
    }
  }

  /**
   For every idle TTL and every number, a run in which Refresh asks for that many Ensure calls of one id
   at one and the same instant, although it drops a session only once.
   */
  lemma RefreshAsksWithoutBound(ttl: int, n: nat) returns (t: System)
    requires n > 0
    ensures Reachable(ttl, t) && t.now == 0
    ensures Count(OfRefreshCreated(ID), t.hist) >= n
    ensures Count(OfCalled(ID), t.hist) >= n
    ensures Count(OfDropped(ID, Refreshed), t.hist) == 1
  {
    var s := AskingReached(ttl, n - 1, n);
    t := AskOnce(ttl, s, n - 1, n);
    RefreshCreationsAreCreations(t.hist, 0, ID);
    SessionsAreConserved(ttl, t, ID);
  }

  /** The promise of the comments: Refresh asks for Ensure of one id at most once per cooldown. */
  ghost predicate CallsKeepCooldown(h: seq<Event>) {
    forall i, j, id :: 0 <= i < j < |h| && IsRefreshCreation(h[i], id) && IsRefreshCreation(h[j], id) ==>
      REFRESH_COOLDOWN <= h[j].at - h[i].at
  }

  predicate IsRefreshCreation(e: Event, id: string) {
    e.Created? && e.byRefresh && e.id == id
  }

  lemma {:induction false} FirstAndLast(h: seq<Event>) returns (i: nat, j: nat)
    requires Count(OfRefreshCreated(ID), h) >= 2
    ensures i < j < |h| && IsRefreshCreation(h[i], ID) && IsRefreshCreation(h[j], ID)
    decreases |h|
  {
    var front := h[..|h| - 1];
    if IsRefreshCreation(h[|h| - 1], ID) {
      var e := CountWitness(OfRefreshCreated(ID), front);
      i, j :| 0 <= i < |front| && front[i] == e && j == |front|;
    } else {
      i, j := FirstAndLast(front);
    }
  }

  /** The promise is broken by some run under every idle TTL, however long. */
  lemma CallsDoNotKeepCooldown(ttl: int) returns (t: System, i: nat, j: nat)
    ensures Reachable(ttl, t) && i < j < |t.hist|
    ensures IsRefreshCreation(t.hist[i], ID) && IsRefreshCreation(t.hist[j], ID) && t.hist[i].at == t.hist[j].at
    ensures !CallsKeepCooldown(t.hist)
  {
    t := RefreshAsksWithoutBound(ttl, 2);
    i, j := FirstAndLast(t.hist);
    InitialReachable(ttl);
    StretchGrows(ttl, INITIAL, t);
    assert IsMapEvent(t.hist[i]) && IsMapEvent(t.hist[j]);
  }
}
