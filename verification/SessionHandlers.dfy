/** The course of one handler through a run, whatever the other threads do, and that nobody gets stuck. */
module SessionHandlers {
  import opened Common
  import opened SessionCore
  import opened SessionProtocol
  import opened SessionShape
  import opened SessionTheorems

  // ---------------------------------------------------------------- nobody is stuck

  /** What a handler can do next: it waits only for the mutex, or in Get's select for its session or its context. */
  ghost predicate CanGoOn(s: System, h: nat)
    requires h < |s.handlers|
  {
    match PcOf(s, h)
    case Entering(_) => LockFree(s) ==> Enabled(s, Enter(h))
    case Waiting(sid, _) =>
      Enabled(s, Cancel(h)) && sid < |s.core.recs| && (s.core.recs[sid].ready ==> Enabled(s, SeeReady(h)))
    case Dropping(_, _) => LockFree(s) ==> Enabled(s, DropFail(h))
    case Serving(_, orig) =>
      && Enabled(s, End(h)) && (s.handlers[h].ws ==> Enabled(s, Open(h)))
      && (orig.None? && LockFree(s) ==> Enabled(s, Refresh(h)))
    case Tunnelling(_) => Enabled(s, Shut(h))
    case Ending(_) => Enabled(s, End(h))
    case Finished => true
    case _ => Enabled(s, Mark(h))
  }

  /** What a resolver can do next, until its channel is closed; its Ensure may return anything. */
  ghost predicate CanResolve(s: System, sid: Sid)
    requires sid < |s.resolvers|
  {
    match s.resolvers[sid]
    case Spawned => Enabled(s, Call(sid))
    case Calling => forall o :: Enabled(s, Return(sid, o))
    case Returned(_) => Enabled(s, Write(sid))
    case Written(_) => Enabled(s, CloseChan(sid))
    case Done(_) => sid < |s.core.recs| && s.core.recs[sid].ready
  }

  /** Who holds the mutex can go on and let go of it; the reaper can always go on with its victims. */
  ghost predicate CanRelease(s: System) {
    && (s.reaper.Scanning? && s.reaper.todo == {} ==> Enabled(s, Unlock))
    && (s.reaper.Scanning? ==> forall id <- s.reaper.todo :: Enabled(s, Visit(id)))
    && (s.recon.Reconciling? ==> Enabled(s, if s.recon.todo == [] then ReconEnd else ReconOne))
    && (s.reaper.Primed? && LockFree(s) ==> Enabled(s, Lock))
    && (s.reaper.Deleting? ==>
          Enabled(s, if s.reaper.calling then EndDelete else if s.reaper.victims == [] then Rest else BeginDelete))
  }

  /**
   In every reachable state each thread can take its next step, or waits for the mutex, whose holder can; and
   a handler that waits for a session waits for one whose resolver can go on.
   */
  lemma NobodyIsStuck(ttl: int, t: System)
    requires Reachable(ttl, t)
    ensures |t.resolvers| == |t.core.recs|
    ensures forall h :: 0 <= h < |t.handlers| ==> CanGoOn(t, h)
    ensures forall sid :: 0 <= sid < |t.resolvers| ==> CanResolve(t, sid)
    ensures CanRelease(t)
  {
    ReachableInv(ttl, t);
    forall h | 0 <= h < |t.handlers| ensures CanGoOn(t, h) { HandlerCanGoOn(t, h); }
    forall sid | 0 <= sid < |t.resolvers| ensures CanResolve(t, sid) { ResolverCanGoOn(t, sid); }
    HolderCanGoOn(t);
  }

  lemma HandlerCanGoOn(t: System, h: nat)
    requires Shape(t) && h < |t.handlers|
    ensures CanGoOn(t, h)
  {
    assert HandlerOk(t.core, t.handlers[h]);
  }

  lemma ResolverCanGoOn(t: System, sid: Sid)
    requires Shape(t) && sid < |t.resolvers|
    ensures CanResolve(t, sid)
  {
    assert ResolverAgrees(t.core.recs[sid], t.resolvers[sid]);
  }

  lemma HolderCanGoOn(t: System)
    requires Shape(t)
    ensures CanRelease(t)
  {
  }

  // ---------------------------------------------------------------- the course of one handler

  /** The session that ServeHTTP's Get returned to a handler, as long as it still has to mark it. */
  function Origin(pc: Pc): Option<Sid> {
    match pc
    case Entering(orig) => orig
    case Waiting(_, orig) => orig
    case Dropping(_, orig) => orig
    case Got(sid) => Some(sid)
    case Serving(sid, orig) => if orig.Some? then orig else Some(sid)
    case Ending(sid) => Some(sid)
    case _ => None
  }

  /** Refresh is behind the handler, or out of its way. */
  predicate PastRefresh(pc: Pc) {
    match pc
    case Entering(orig) => orig.Some?
    case Waiting(_, orig) => orig.Some?
    case Dropping(_, orig) => orig.Some?
    case Got(_) => false
    case Serving(_, orig) => orig.Some?
    case _ => true
  }

  lemma StepKeepsCourse(ttl: int, s: System, step: Step, h: nat)
    requires Enabled(s, step) && h < |s.handlers|
    ensures var t := Act(ttl, s, step);
      && h < |t.handlers| && t.handlers[h].id == s.handlers[h].id && t.handlers[h].ws == s.handlers[h].ws
      && (PastRefresh(PcOf(s, h)) ==> PastRefresh(PcOf(t, h)))
      && (!s.handlers[h].ws && Origin(PcOf(s, h)).Some? && step != End(h) ==> Origin(PcOf(t, h)) == Origin(PcOf(s, h)))
  {
    if HandlerEnabled(s, step) { HandlerKeepsCourse(s, step, h); }
  }

  lemma HandlerKeepsCourse(s: System, step: Step, h: nat)
    requires HandlerEnabled(s, step) && h < |s.handlers|
    ensures var t := HandlerAct(s, step);
      && h < |t.handlers| && t.handlers[h].id == s.handlers[h].id && t.handlers[h].ws == s.handlers[h].ws
      && (PastRefresh(PcOf(s, h)) ==> PastRefresh(PcOf(t, h)))
      && (!s.handlers[h].ws && Origin(PcOf(s, h)).Some? && step != End(h) ==> Origin(PcOf(t, h)) == Origin(PcOf(s, h)))
  {
  }

  lemma {:induction false} RunKeepsCourse(ttl: int, s: System, steps: seq<Step>, h: nat)
    requires Run(ttl, s, steps).Some? && h < |s.handlers|
    ensures var t := Run(ttl, s, steps).value;
      && h < |t.handlers| && t.handlers[h].id == s.handlers[h].id && t.handlers[h].ws == s.handlers[h].ws
      && (PastRefresh(PcOf(s, h)) ==> PastRefresh(PcOf(t, h)))
      && (!s.handlers[h].ws && Origin(PcOf(s, h)).Some? && End(h) !in steps ==>
            Origin(PcOf(t, h)) == Origin(PcOf(s, h)))
    decreases |steps|
  {
    if steps != [] {
      StepKeepsCourse(ttl, s, steps[0], h);
      RunKeepsCourse(ttl, Apply(ttl, s, steps[0]), steps[1..], h);
    }
  }

  /** A handler calls Refresh at most once. */
  lemma RefreshesOnce(ttl: int, s: System, h: nat, steps: seq<Step>)
    requires Enabled(s, Refresh(h)) && Run(ttl, Apply(ttl, s, Refresh(h)), steps).Some?
    ensures !Enabled(Run(ttl, Apply(ttl, s, Refresh(h)), steps).value, Refresh(h))
  {
    RunKeepsCourse(ttl, Apply(ttl, s, Refresh(h)), steps, h);
  }

  /**
   An HTTP handler that was given a session marks it at once; whatever Refresh and other threads do later, it
   stays with its request until its end, and there marks the same session again.
   */
  lemma HttpMarksWhatItGot(ttl: int, s: System, h: nat, sid: Sid, steps: seq<Step>, u: System)
    requires Reachable(ttl, s) && h < |s.handlers| && s.handlers[h].pc == Got(sid) && !s.handlers[h].ws
    requires Enabled(s, Mark(h)) && Run(ttl, Apply(ttl, s, Mark(h)), steps) == Some(u) && End(h) !in steps
    ensures sid < |s.core.recs| && Apply(ttl, s, Mark(h)).core.recs[sid].lastActive == s.now
    ensures h < |u.handlers| && u.handlers[h].pc != Finished
    ensures Enabled(u, End(h)) ==>
      var t := Apply(ttl, u, End(h));
      sid < |t.core.recs| && t.core.recs[sid].lastActive == u.now && t.handlers[h].pc == Finished
  {
    MarkTouches(ttl, s, h);
    RunKeepsCourse(ttl, Apply(ttl, s, Mark(h)), steps, h);
    if Enabled(u, End(h)) { EndTouches(ttl, u, h); }
  }

  lemma MarkTouches(ttl: int, s: System, h: nat)
    requires Enabled(s, Mark(h))
    ensures var sid := PcOf(s, h).sid; var t := Apply(ttl, s, Mark(h));
      && sid < |t.core.recs| && t.core.recs[sid].lastActive == s.now
      && |t.handlers| == |s.handlers| && t.handlers[h].ws == s.handlers[h].ws
      && (PcOf(s, h).Got? ==> t.handlers[h].pc == Serving(sid, None))
      && (PcOf(s, h).Opening? ==> t.handlers[h].pc == Tunnelling(sid))
  {
  }

  lemma EndTouches(ttl: int, u: System, h: nat)
    requires Enabled(u, End(h)) && !u.handlers[h].ws
    ensures var sid := Served(PcOf(u, h)); var t := Apply(ttl, u, End(h));
      && Origin(PcOf(u, h)) == Some(sid) && sid < |t.core.recs| && t.core.recs[sid].lastActive == u.now
      && h < |t.handlers| && t.handlers[h].pc == Finished
  {
  }

  /** A WebSocket handler counts its tunnel on the session that it serves, and marks that one as it opens it. */
  lemma TunnelsCountAndMark(ttl: int, s: System, h: nat, sid: Sid, steps: seq<Step>, u: System)
    requires Reachable(ttl, s) && Enabled(s, Open(h)) && PcOf(s, h).sid == sid
    requires Run(ttl, Apply(ttl, s, Open(h)), steps) == Some(u) && Mark(h) !in steps
    ensures h < |u.handlers| && u.handlers[h].pc == Opening(sid) && Enabled(u, Mark(h))
    ensures var t := Apply(ttl, u, Mark(h)); t.handlers[h].pc == Tunnelling(sid) && t.core.recs[sid].lastActive == u.now
  {
    ReachableInv(ttl, s);
    StepKeepsShape(ttl, s, Open(h));
    OpeningStays(ttl, Apply(ttl, s, Open(h)), h, sid, steps);
    HandlerCanGoOn(u, h);
    MarkTouches(ttl, u, h);
  }

  lemma {:induction false} OpeningStays(ttl: int, s: System, h: nat, sid: Sid, steps: seq<Step>)
    requires Shape(s) && h < |s.handlers| && s.handlers[h].pc == Opening(sid)
    requires Run(ttl, s, steps).Some? && Mark(h) !in steps
    ensures var u := Run(ttl, s, steps).value; Shape(u) && h < |u.handlers| && u.handlers[h].pc == Opening(sid)
    decreases |steps|
  {
    if steps != [] {
      OpeningWaits(ttl, s, h, steps[0]);
      StepKeepsShape(ttl, s, steps[0]);
      OpeningStays(ttl, Apply(ttl, s, steps[0]), h, sid, steps[1..]);
    }
  }

  lemma OpeningWaits(ttl: int, s: System, h: nat, step: Step)
    requires Enabled(s, step) && h < |s.handlers| && s.handlers[h].pc.Opening? && step != Mark(h)
    ensures h < |Act(ttl, s, step).handlers| && Act(ttl, s, step).handlers[h].pc == s.handlers[h].pc
  {
  }
}
