/** Building runs of the session protocol piece by piece: each lemma carries a reachable state to a later one. */
module SessionRuns {
  import opened Common
  import opened SessionCore
  import opened SessionProtocol
  import opened SessionLedger
  import opened SessionEvents

  /** Between the two states Refresh dropped no session. */
  ghost predicate Quiet(s: System, t: System) {
    forall id :: Count(OfDropped(id, Refreshed), t.hist) == Count(OfDropped(id, Refreshed), s.hist)
  }

  lemma OnlyRefreshDrops(ttl: int, s: System, step: Step)
    requires Enabled(s, step) && !step.Refresh?
    ensures Quiet(s, Apply(ttl, s, step))
  {
    var ch, call := ChangeEvents(s, ChangeOf(s, step)), CallEvents(s, step);
    NoRefreshDrop(s, step);
    NoDropCalls(s, step);
    OneCallEvent(s, step);
    CountTwice(s.hist, ch, call);
    forall id ensures One(OfDropped(id, Refreshed), ch) == 0 && One(OfDropped(id, Refreshed), call) == 0 {
      assert call == [] || call[0] in call;
    }
  }

  lemma NoRefreshDrop(s: System, step: Step)
    requires Enabled(s, step) && !step.Refresh?
    ensures ChangeOf(s, step).Loss? ==> ChangeOf(s, step).why != Refreshed
  {
  }

  lemma OneCallEvent(s: System, step: Step)
    requires Enabled(s, step)
    ensures |CallEvents(s, step)| <= 1
  {
  }

  lemma {:induction false} RunSnoc(ttl: int, s: System, steps: seq<Step>, step: Step)
    requires Run(ttl, s, steps).Some? && Enabled(Run(ttl, s, steps).value, step)
    ensures Run(ttl, s, steps + [step]) == Some(Apply(ttl, Run(ttl, s, steps).value, step))
    decreases |steps|
  {
    if steps == [] {
      assert [step][1..] == [];
    } else {
      assert (steps + [step])[0] == steps[0] && (steps + [step])[1..] == steps[1..] + [step];
      RunSnoc(ttl, Apply(ttl, s, steps[0]), steps[1..], step);
    }
  }

  lemma ReachStep(ttl: int, s: System, step: Step)
    requires Reachable(ttl, s) && Enabled(s, step)
    ensures Reachable(ttl, Apply(ttl, s, step))
    ensures !step.Refresh? ==> Quiet(s, Apply(ttl, s, step))
  {
    if !step.Refresh? { OnlyRefreshDrops(ttl, s, step); }
    var steps :| Run(ttl, INITIAL, steps) == Some(s);
    RunSnoc(ttl, INITIAL, steps, step);
  }

  lemma InitialReachable(ttl: int)
    ensures Reachable(ttl, INITIAL)
  {
    assert Run(ttl, INITIAL, []) == Some(INITIAL);
  }

  lemma CallReached(ttl: int, s: System, sid: Sid) returns (t: System)
    requires Reachable(ttl, s) && Valid(s, sid) && s.resolvers[sid].Spawned?
    ensures Reachable(ttl, t) && Quiet(s, t)
    ensures t == s.(resolvers := s.resolvers[sid := Calling], hist := s.hist + [Called(sid, s.core.recs[sid].id)])
  {
    ReachStep(ttl, s, Call(sid));
    t := Apply(ttl, s, Call(sid));
  }

  lemma ReturnReached(ttl: int, s: System, sid: Sid, o: Outcome) returns (t: System)
    requires Reachable(ttl, s) && Valid(s, sid) && s.resolvers[sid].Calling?
    ensures Reachable(ttl, t) && Quiet(s, t)
    ensures t == s.(resolvers := s.resolvers[sid := Returned(o)], hist := s.hist + [Resolved(sid, o)])
  {
    ReachStep(ttl, s, Return(sid, o));
    t := Apply(ttl, s, Return(sid, o));
  }

  lemma WriteReached(ttl: int, s: System, sid: Sid, o: Outcome) returns (t: System)
    requires Reachable(ttl, s) && Valid(s, sid) && s.resolvers[sid] == Returned(o)
    ensures Reachable(ttl, t) && Quiet(s, t)
    ensures t == s.(core := Publish(s.core, sid, o), resolvers := s.resolvers[sid := Written(o)])
  {
    ReachStep(ttl, s, Write(sid));
    t := Apply(ttl, s, Write(sid));
    assert t.hist == s.hist;
  }

  lemma CloseReached(ttl: int, s: System, sid: Sid, o: Outcome) returns (t: System)
    requires Reachable(ttl, s) && Valid(s, sid) && s.resolvers[sid] == Written(o)
    ensures Reachable(ttl, t) && Quiet(s, t)
    ensures t == s.(core := CloseReady(s.core, sid), resolvers := s.resolvers[sid := Done(o)],
                    hist := s.hist + [Closed(sid)])
  {
    ReachStep(ttl, s, CloseChan(sid));
    t := Apply(ttl, s, CloseChan(sid));
  }

  /** Carries a new session from its first state to the result `o`. */
  lemma ResolveReached(ttl: int, s: System, sid: Sid, o: Outcome) returns (t: System)
    requires Reachable(ttl, s) && Valid(s, sid) && s.resolvers[sid].Spawned?
    ensures Reachable(ttl, t) && Quiet(s, t)
    ensures t == s.(core := CloseReady(Publish(s.core, sid, o), sid), resolvers := s.resolvers[sid := Done(o)],
                    hist := s.hist + [Called(sid, s.core.recs[sid].id), Resolved(sid, o), Closed(sid)])
  {
    var s1 := CallReached(ttl, s, sid);
    var s2 := ReturnReached(ttl, s1, sid, o);
    var s3 := WriteReached(ttl, s2, sid, o);
    t := CloseReached(ttl, s3, sid, o);
    assert t.resolvers == s.resolvers[sid := Done(o)];
    assert t.hist == s.hist + [Called(sid, s.core.recs[sid].id), Resolved(sid, o), Closed(sid)];
  }

  /** Handler `h` of the run so far is the last one, and is in Get for a session that was just created. */
  lemma EnterReached(ttl: int, s: System, h: nat, orig: Option<Sid>) returns (t: System)
    requires Reachable(ttl, s) && LockFree(s) && |s.resolvers| == |s.core.recs|
    requires h < |s.handlers| && s.handlers[h].pc == Entering(orig) && s.handlers[h].id !in s.core.sessions
    ensures Reachable(ttl, t) && Quiet(s, t)
    ensures t == s.(core := Create(s.core, s.handlers[h].id, s.now), resolvers := s.resolvers + [Spawned],
                    handlers := s.handlers[h := s.handlers[h].(pc := Waiting(|s.core.recs|, orig))],
                    hist := s.hist + [Created(|s.core.recs|, s.handlers[h].id, orig.Some?, s.now)])
  {
    ReachStep(ttl, s, Enter(h));
    t := Apply(ttl, s, Enter(h));
  }

  lemma ArriveReached(ttl: int, s: System, id: string) returns (t: System)
    requires Reachable(ttl, s)
    ensures Reachable(ttl, t) && Quiet(s, t)
    ensures t == s.(handlers := s.handlers + [Handler(id, false, Entering(None))])
  {
    ReachStep(ttl, s, Arrive(id, false));
    t := Apply(ttl, s, Arrive(id, false));
    assert t.hist == s.hist;
  }

  lemma SeeReached(ttl: int, s: System, h: nat, sid: Sid) returns (t: System)
    requires Reachable(ttl, s) && h < |s.handlers| && s.handlers[h].pc == Waiting(sid, None)
    requires Valid(s, sid) && s.core.recs[sid].Good()
    ensures Reachable(ttl, t) && Quiet(s, t) && s.hist <= t.hist
    ensures t == s.(handlers := s.handlers[h := s.handlers[h].(pc := Got(sid))], hist := t.hist)
  {
    ReachStep(ttl, s, SeeReady(h));
    t := Apply(ttl, s, SeeReady(h));
  }

  lemma MarkReached(ttl: int, s: System, h: nat, sid: Sid) returns (t: System)
    requires Reachable(ttl, s) && h < |s.handlers| && s.handlers[h].pc == Got(sid) && Valid(s, sid)
    ensures Reachable(ttl, t) && Quiet(s, t) && s.hist <= t.hist
    ensures t == s.(core := Touch(s.core, sid, s.now), hist := t.hist,
                    handlers := s.handlers[h := s.handlers[h].(pc := Serving(sid, None))])
  {
    ReachStep(ttl, s, Mark(h));
    t := Apply(ttl, s, Mark(h));
  }

  lemma GoodReached(ttl: int, s: System, id: string) returns (t: System)
    requires Reachable(ttl, s) && LockFree(s) && |s.resolvers| == |s.core.recs| && id !in s.core.sessions
    ensures Reachable(ttl, t) && Quiet(s, t) && s.hist <= t.hist
    ensures var sid := |s.core.recs|;
      && t.now == s.now && t.reaper == s.reaper && t.recon == s.recon
      && t.core == Core(s.core.recs + [NewRec(id, s.now).(ready := true)], s.core.sessions[id := sid],
                        s.core.lastRefresh)
      && |t.resolvers| == |t.core.recs|
      && t.handlers == s.handlers + [Handler(id, false, Waiting(sid, None))]
  {
    var h, sid := |s.handlers|, |s.core.recs|;
    var s1 := ArriveReached(ttl, s, id);
    var s2 := EnterReached(ttl, s1, h, None);
    t := ResolveReached(ttl, s2, sid, Success(ZERO_ENDPOINT));
    assert t.core.recs == s.core.recs + [NewRec(id, s.now).(ready := true)];
  }

  /** A request for an id without a session is served by a new, successful one. */
  lemma ServeReached(ttl: int, s: System, id: string) returns (t: System)
    requires Reachable(ttl, s) && LockFree(s) && |s.resolvers| == |s.core.recs| && id !in s.core.sessions
    ensures Reachable(ttl, t) && Quiet(s, t) && s.hist <= t.hist
    ensures var sid := |s.core.recs|;
      && t.now == s.now && t.reaper == s.reaper && t.recon == s.recon
      && t.core == Core(s.core.recs + [NewRec(id, s.now).(ready := true)], s.core.sessions[id := sid],
                        s.core.lastRefresh)
      && |t.resolvers| == |t.core.recs|
      && t.handlers == s.handlers + [Handler(id, false, Serving(sid, None))]
  {
    var h, sid := |s.handlers|, |s.core.recs|;
    var s1 := GoodReached(ttl, s, id);
    var s2 := SeeReached(ttl, s1, h, sid);
    t := MarkReached(ttl, s2, h, sid);
    assert t.core.recs == s1.core.recs;
    assert t.handlers == s.handlers + [Handler(id, false, Serving(sid, None))];
  }

  /** A dial failure makes the handler drop the session it holds. */
  lemma RefreshReached(ttl: int, s: System, h: nat, sid: Sid, id: string) returns (t: System)
    requires Reachable(ttl, s) && LockFree(s) && Valid(s, sid) && s.core.recs[sid].id == id
    requires h < |s.handlers| && s.handlers[h].pc == Serving(sid, None)
    requires Filed(s.core, id, sid) && !CoolingDown(s.core, id, s.now)
    ensures Reachable(ttl, t)
    ensures t == s.(core := s.core.(sessions := s.core.sessions - {id}, lastRefresh := s.core.lastRefresh[id := s.now]),
                    handlers := s.handlers[h := s.handlers[h].(pc := Entering(Some(sid)))],
                    hist := s.hist + [Dropped(sid, id, Refreshed, s.now), Noted(id, s.now)])
  {
    ReachStep(ttl, s, Refresh(h));
    t := Apply(ttl, s, Refresh(h));
  }

  /** After `d` units of time the reaper takes the session of `id`, the only entry, and lets go of the lock. */
  lemma ReapReached(ttl: int, s: System, id: string, sid: Sid, d: nat) returns (t: System)
    requires Reachable(ttl, s) && s.reaper.Sleeping? && LockFree(s)
    requires s.core.sessions == map[id := sid] && sid < |s.core.recs| && Reapable(s.core.recs[sid], s.now + d - ttl)
    ensures Reachable(ttl, t) && s.hist <= t.hist
    ensures t == s.(now := s.now + d, core := s.core.(sessions := map[], lastRefresh := s.core.lastRefresh - {id}),
                    reaper := Deleting([sid], false), hist := t.hist)
  {
    var s1 := TickReached(ttl, s, d);
    var s2 := LockReached(ttl, s1);
    var s3 := VisitReached(ttl, s2, id, sid);
    t := UnlockReached(ttl, s3);
  }

  lemma VisitReached(ttl: int, s: System, id: string, sid: Sid) returns (t: System)
    requires Reachable(ttl, s) && s.reaper.Scanning? && s.reaper.todo == {id} && s.reaper.victims == []
    requires s.core.sessions == map[id := sid] && sid < |s.core.recs| && Reapable(s.core.recs[sid], s.reaper.cutoff)
    ensures Reachable(ttl, t) && s.hist <= t.hist
    ensures t == s.(core := s.core.(sessions := map[], lastRefresh := s.core.lastRefresh - {id}),
                    reaper := Scanning(s.reaper.cutoff, {}, [sid]), hist := t.hist)
  {
    ReachStep(ttl, s, Visit(id));
    t := Apply(ttl, s, Visit(id));
    assert t.core.sessions == map[];
    assert s.reaper.todo - {id} == {} && s.reaper.victims + [sid] == [sid];
  }

  lemma TickReached(ttl: int, s: System, d: nat) returns (t: System)
    requires Reachable(ttl, s)
    ensures Reachable(ttl, t) && t == s.(now := s.now + d)
  {
    ReachStep(ttl, s, Tick(d));
    t := Apply(ttl, s, Tick(d));
    assert t.hist == s.hist;
  }

  lemma LockReached(ttl: int, s: System) returns (t: System)
    requires Reachable(ttl, s) && s.reaper.Sleeping? && LockFree(s)
    ensures Reachable(ttl, t)
    ensures t == s.(reaper := Scanning(s.now - ttl, s.core.sessions.Keys, []))
  {
    ReachStep(ttl, s, Prime);
    var s1 := Apply(ttl, s, Prime);
    assert s1 == s.(reaper := Primed(s.now - ttl));
    ReachStep(ttl, s1, Lock);
    t := Apply(ttl, s1, Lock);
    assert t.hist == s.hist;
  }

  lemma UnlockReached(ttl: int, s: System) returns (t: System)
    requires Reachable(ttl, s) && s.reaper.Scanning? && s.reaper.todo == {}
    ensures Reachable(ttl, t) && t == s.(reaper := Deleting(s.reaper.victims, false))
  {
    ReachStep(ttl, s, Unlock);
    t := Apply(ttl, s, Unlock);
    assert t.hist == s.hist;
  }

  lemma DeletingReached(ttl: int, s: System, sid: Sid) returns (t: System)
    requires Reachable(ttl, s) && s.reaper == Deleting([sid], false)
    ensures Reachable(ttl, t)
    ensures t == s.(reaper := Deleting([sid], true), hist := s.hist + [DeleteCalled(sid)])
  {
    ReachStep(ttl, s, BeginDelete);
    t := Apply(ttl, s, BeginDelete);
  }

  /** A second handler on an id that has a good session comes to hold it too. */
  lemma JoinReached(ttl: int, s: System, id: string, sid: Sid) returns (t: System)
    requires Reachable(ttl, s) && LockFree(s) && Filed(s.core, id, sid) && Valid(s, sid) && s.core.recs[sid].Good()
    ensures Reachable(ttl, t) && Quiet(s, t)
    ensures t == s.(core := Touch(s.core, sid, s.now), hist := t.hist,
                    handlers := s.handlers + [Handler(id, false, Serving(sid, None))])
  {
    var h := |s.handlers|;
    var s1 := ArriveReached(ttl, s, id);
    ReachStep(ttl, s1, Enter(h));
    var s2 := Apply(ttl, s1, Enter(h));
    assert s2 == s1.(handlers := s.handlers + [Handler(id, false, Waiting(sid, None))]);
    var s3 := SeeReached(ttl, s2, h, sid);
    t := MarkReached(ttl, s3, h, sid);
    assert t.handlers == s.handlers + [Handler(id, false, Serving(sid, None))];
  }

  /** Within the cooldown, Refresh hands over whatever the map holds. */
  lemma CoolReached(ttl: int, s: System, h: nat, sid: Sid, cur: Sid, id: string) returns (t: System)
    requires Reachable(ttl, s) && LockFree(s) && Valid(s, sid) && s.core.recs[sid].id == id
    requires h < |s.handlers| && s.handlers[h].pc == Serving(sid, None)
    requires Filed(s.core, id, cur) && CoolingDown(s.core, id, s.now)
    ensures Reachable(ttl, t)
    ensures t == s.(handlers := s.handlers[h := s.handlers[h].(pc := Serving(cur, Some(sid)))])
  {
    ReachStep(ttl, s, Refresh(h));
    t := Apply(ttl, s, Refresh(h));
    assert t.hist == s.hist;
  }

  /** Within the cooldown and without an entry, Refresh goes on to Get. */
  lemma CoolEmptyReached(ttl: int, s: System, h: nat, sid: Sid, id: string) returns (t: System)
    requires Reachable(ttl, s) && LockFree(s) && Valid(s, sid) && s.core.recs[sid].id == id
    requires h < |s.handlers| && s.handlers[h].pc == Serving(sid, None)
    requires id !in s.core.sessions && CoolingDown(s.core, id, s.now)
    ensures Reachable(ttl, t) && Quiet(s, t)
    ensures t == s.(handlers := s.handlers[h := s.handlers[h].(pc := Entering(Some(sid)))])
  {
    ReachStep(ttl, s, Refresh(h));
    t := Apply(ttl, s, Refresh(h));
    assert t.hist == s.hist;
  }

  /** Past the test, with a stale session that is not the entry any more, Refresh only notes its time. */
  lemma LateReached(ttl: int, s: System, h: nat, sid: Sid, id: string) returns (t: System)
    requires Reachable(ttl, s) && LockFree(s) && Valid(s, sid) && s.core.recs[sid].id == id
    requires h < |s.handlers| && s.handlers[h].pc == Serving(sid, None)
    requires !Filed(s.core, id, sid) && !CoolingDown(s.core, id, s.now)
    ensures Reachable(ttl, t)
    ensures t == s.(core := s.core.(lastRefresh := s.core.lastRefresh[id := s.now]),
                    handlers := s.handlers[h := s.handlers[h].(pc := Entering(Some(sid)))],
                    hist := s.hist + [Noted(id, s.now)])
  {
    ReachStep(ttl, s, Refresh(h));
    t := Apply(ttl, s, Refresh(h));
  }

  /** A refresher whose new session failed takes it out of the map. */
  lemma FailReached(ttl: int, s: System, h: nat, sid: Sid, orig: Sid) returns (t: System)
    requires Reachable(ttl, s) && LockFree(s) && Valid(s, sid) && s.core.recs[sid].Broken()
    requires h < |s.handlers| && s.handlers[h].pc == Waiting(sid, Some(orig)) && Filed(s.core, s.handlers[h].id, sid)
    ensures Reachable(ttl, t) && Quiet(s, t) && s.hist <= t.hist
    ensures t == s.(core := s.core.(sessions := s.core.sessions - {s.handlers[h].id}), hist := t.hist,
                    handlers := s.handlers[h := s.handlers[h].(pc := Ending(orig))])
  {
    ReachStep(ttl, s, SeeReady(h));
    var s1 := Apply(ttl, s, SeeReady(h));
    assert s1 == s.(handlers := s.handlers[h := s.handlers[h].(pc := Dropping(sid, Some(orig)))]);
    ReachStep(ttl, s1, DropFail(h));
    t := Apply(ttl, s1, DropFail(h));
    assert t.handlers == s.handlers[h := s.handlers[h].(pc := Ending(orig))];
  }
}
