/**
 What each recorded event still means in every later state, the spacing of drops, and the
 agreement of connection counters with the handlers.
 */
module SessionEvents {
  import opened Common
  import opened SessionCore
  import opened SessionProtocol
  import opened SessionShape
  import opened SessionLedger

  // ---------------------------------------------------------------- connection counters

  predicate Inside(pc: Pc, sid: Sid) {
    (pc.Opening? || pc.Tunnelling?) && pc.sid == sid
  }

  /** The number of handlers between ConnOpened and ConnClosed on a session. */
  function Tunnels(hs: seq<Handler>, sid: Sid): nat
    decreases |hs|
  {
    if hs == [] then 0 else Tunnels(hs[..|hs| - 1], sid) + Bit(Inside(hs[|hs| - 1].pc, sid))
  }

  ghost predicate ConnsMatch(s: System) {
    forall sid: Sid :: Tunnels(s.handlers, sid) == if sid < |s.core.recs| then s.core.recs[sid].conns else 0
  }

  lemma {:induction false} TunnelsUpdate(hs: seq<Handler>, h: nat, hd: Handler, sid: Sid)
    requires h < |hs|
    ensures Tunnels(hs[h := hd], sid) + Bit(Inside(hs[h].pc, sid)) == Tunnels(hs, sid) + Bit(Inside(hd.pc, sid))
    decreases |hs|
  {
    var front := hs[..|hs| - 1];
    if h == |hs| - 1 {
      assert hs[h := hd][..|hs| - 1] == front;
    } else {
      assert hs[h := hd][..|hs| - 1] == front[h := hd];
      TunnelsUpdate(front, h, hd, sid);
    }
  }

  lemma TunnelsSnoc(hs: seq<Handler>, hd: Handler, sid: Sid)
    ensures Tunnels(hs + [hd], sid) == Tunnels(hs, sid) + Bit(Inside(hd.pc, sid))
  {
    assert (hs + [hd])[..|hs|] == hs;
  }

  function Conns(c: Core, sid: Sid): int {
    if sid < |c.recs| then c.recs[sid].conns else 0
  }

  /** How a handler's step moves the counter of `sid`. */
  function ConnDelta(s: System, step: Step, sid: Sid): int
    requires HandlerEnabled(s, step)
  {
    if step.Open? && PcOf(s, step.h).sid == sid then 1
    else if step.Shut? && PcOf(s, step.h).sid == sid then -1
    else 0
  }

  lemma HandlerStepConns(s: System, step: Step, sid: Sid)
    requires HandlerEnabled(s, step)
    ensures Conns(HandlerAct(s, step).core, sid) == Conns(s.core, sid) + ConnDelta(s, step, sid)
  {
  }

  lemma HandlerStepTunnels(s: System, step: Step, sid: Sid)
    requires HandlerEnabled(s, step)
    ensures Tunnels(HandlerAct(s, step).handlers, sid) == Tunnels(s.handlers, sid) + ConnDelta(s, step, sid)
  {
    var t := HandlerAct(s, step);
    TunnelsUpdate(s.handlers, step.h, t.handlers[step.h], sid);
  }

  lemma OtherStepConns(ttl: int, s: System, step: Step, sid: Sid)
    requires Shape(s) && OtherEnabled(s, step) && Tunnels(s.handlers, sid) == Conns(s.core, sid)
    ensures Tunnels(OtherAct(ttl, s, step).handlers, sid) == Conns(OtherAct(ttl, s, step).core, sid)
  {
    if step.Arrive? { TunnelsSnoc(s.handlers, Handler(step.id, step.ws, Entering(None)), sid); }
  }

  lemma StepKeepsConnsMatch(ttl: int, s: System, step: Step)
    requires Shape(s) && Enabled(s, step) && ConnsMatch(s)
    ensures ConnsMatch(Apply(ttl, s, step))
  {
    forall sid: Sid
      ensures Tunnels(Apply(ttl, s, step).handlers, sid) == Conns(Apply(ttl, s, step).core, sid)
    {
      assert Tunnels(s.handlers, sid) == Conns(s.core, sid);
      if HandlerEnabled(s, step) {
        HandlerStepConns(s, step, sid);
        HandlerStepTunnels(s, step, sid);
      } else {
        OtherStepConns(ttl, s, step, sid);
      }
    }
  }

  // ---------------------------------------------------------------- what events mean later

  /**
   After a drop at `at` the id has only an entry that was active since; and a Refresh drop either still
   shows in lastRefresh, or the reaper erased it one TTL later.
   */
  predicate DropMark(ttl: int, s: System, id: string, why: Why, at: int) {
    && (id in s.core.sessions && s.core.sessions[id] < |s.core.recs| ==>
          at <= s.core.recs[s.core.sessions[id]].lastActive)
    && (why == Refreshed ==> if id in s.core.lastRefresh then at <= s.core.lastRefresh[id] else at + ttl <= s.now)
    && (s.recon.Reconciling? ==> at <= s.recon.at)
  }

  predicate EventOk(ttl: int, s: System, e: Event) {
    match e
    case Created(sid, id, _, _) => SidOk(s.core, id, sid)
    case Called(sid, id) => SidOk(s.core, id, sid)
    case Resolved(sid, o) => HasResult(s, sid) && s.resolvers[sid].o == o
    case Closed(sid) => sid < |s.core.recs| && s.core.recs[sid].ready
    case Dropped(sid, id, why, at) =>
      && SidOk(s.core, id, sid) && s.core.recs[sid].ready && !InMap(s.core, sid)
      && at <= s.now
      && DropMark(ttl, s, id, why, at)
    case Noted(_, at) => at <= s.now
    case GetReturned(id, sid, res) =>
      && SidOk(s.core, id, sid)
      && match res {
           case GotSession(ep) => s.core.recs[sid].Good() && s.core.recs[sid].endpoint == ep
           case GotError(err) => s.core.recs[sid].ready && s.core.recs[sid].err == Some(err)
           case GotCancelled => true
         }
    case DeleteCalled(sid) => sid < |s.core.recs|
    case Marked(sid, at) => sid < |s.core.recs| && at <= s.core.recs[sid].lastActive
  }

  /** The reaper's cutoff is at least one TTL in the past. */
  predicate CutoffOk(ttl: int, s: System) {
    (s.reaper.Primed? || s.reaper.Scanning?) ==> s.reaper.cutoff + ttl <= s.now
  }

  lemma HandlerStepMark(ttl: int, s: System, step: Step, id: string, why: Why, at: int)
    requires Shape(s) && HandlerEnabled(s, step) && at <= s.now && DropMark(ttl, s, id, why, at)
    ensures DropMark(ttl, HandlerAct(s, step), id, why, at)
  {
    HandlerChanges(s, step);
    HandlerStepKeepsShape(s, step);
    var t := HandlerAct(s, step);
    if id in s.core.sessions { assert Advances(s.core.recs[s.core.sessions[id]], t.core.recs[s.core.sessions[id]]); }
  }

  lemma OtherStepMark(ttl: int, s: System, step: Step, id: string, why: Why, at: int)
    requires Shape(s) && OtherEnabled(s, step) && CutoffOk(ttl, s) && at <= s.now && DropMark(ttl, s, id, why, at)
    ensures DropMark(ttl, OtherAct(ttl, s, step), id, why, at)
  {
    OtherChanges(ttl, s, step);
    OtherStepKeepsShape(ttl, s, step);
    var t := OtherAct(ttl, s, step);
    if id in s.core.sessions { assert Advances(s.core.recs[s.core.sessions[id]], t.core.recs[s.core.sessions[id]]); }
  }

  lemma StepKeepsCutoffOk(ttl: int, s: System, step: Step)
    requires Enabled(s, step) && CutoffOk(ttl, s)
    ensures CutoffOk(ttl, Apply(ttl, s, step)) && s.now <= Apply(ttl, s, step).now
  {
  }

  lemma StepMark(ttl: int, s: System, step: Step, id: string, why: Why, at: int)
    requires Shape(s) && Enabled(s, step) && CutoffOk(ttl, s) && at <= s.now && DropMark(ttl, s, id, why, at)
    ensures DropMark(ttl, Apply(ttl, s, step), id, why, at)
  {
    if HandlerEnabled(s, step) {
      HandlerStepMark(ttl, s, step, id, why, at);
    } else {
      OtherStepMark(ttl, s, step, id, why, at);
    }
  }

  /** What an event says is still so after any further step. */
  lemma OldEventStaysOk(ttl: int, s: System, t: System, step: Step, e: Event)
    requires Enabled(s, step) && EventOk(ttl, s, e)
    requires RecsAdvance(s.core, t.core) && Changed(s.core, t.core, ChangeOf(s, step))
    requires ResolversMoved(s, t, step, ChangeOf(s, step)) && s.now <= t.now
    requires e.Dropped? ==> DropMark(ttl, t, e.id, e.why, e.at)
    ensures EventOk(ttl, t, e)
  {
    if e.Resolved? {
      ResultStays(s, t, step, e);
    } else if !e.Noted? {
      assert Advances(s.core.recs[e.sid], t.core.recs[e.sid]);
      if e.Dropped? { GoneStaysGone(s.core, t.core, ChangeOf(s, step), e.sid); }
    }
  }

  lemma ResultStays(s: System, t: System, step: Step, e: Event)
    requires Enabled(s, step) && ResolversMoved(s, t, step, ChangeOf(s, step))
    requires e.Resolved? && HasResult(s, e.sid) && s.resolvers[e.sid].o == e.o
    ensures HasResult(t, e.sid) && t.resolvers[e.sid].o == e.o
  {
  }

  lemma ChangeEventOk(ttl: int, s: System, step: Step, e: Event)
    requires Shape(s) && Enabled(s, step) && e in ChangeEvents(s, ChangeOf(s, step))
    ensures EventOk(ttl, Apply(ttl, s, step), e)
  {
    var t := Apply(ttl, s, step);
    if HandlerEnabled(s, step) { HandlerChanges(s, step); } else { OtherChanges(ttl, s, step); }
    StepKeepsShape(ttl, s, step);
    if ChangeOf(s, step).Loss? {
      OnlyReadyLeave(s, step);
      assert Advances(s.core.recs[e.sid], t.core.recs[e.sid]);
    }
  }

  lemma HandlerEventOk(ttl: int, s: System, step: Step, e: Event)
    requires Shape(s) && HandlerEnabled(s, step) && e in CallEvents(s, step)
    ensures EventOk(ttl, HandlerAct(s, step), e)
  {
    HandlerStepKeepsShape(s, step);
    assert HandlerOk(s.core, s.handlers[step.h]);
    if !e.Noted? { assert Advances(s.core.recs[e.sid], HandlerAct(s, step).core.recs[e.sid]); }
  }

  lemma OtherEventOk(ttl: int, s: System, step: Step, e: Event)
    requires Shape(s) && OtherEnabled(s, step) && e in CallEvents(s, step)
    ensures EventOk(ttl, OtherAct(ttl, s, step), e)
  {
    OtherStepKeepsShape(ttl, s, step);
    if step.BeginDelete? { assert s.reaper.victims[0] in s.reaper.victims; }
  }

  lemma CallEventOk(ttl: int, s: System, step: Step, e: Event)
    requires Shape(s) && Enabled(s, step) && e in CallEvents(s, step)
    ensures EventOk(ttl, Apply(ttl, s, step), e)
  {
    if HandlerEnabled(s, step) { HandlerEventOk(ttl, s, step, e); } else { OtherEventOk(ttl, s, step, e); }
  }

  predicate EventsOk(ttl: int, s: System) {
    forall e <- s.hist :: EventOk(ttl, s, e)
  }

  lemma StepKeepsEventsOk(ttl: int, s: System, step: Step)
    requires Shape(s) && Enabled(s, step) && CutoffOk(ttl, s) && EventsOk(ttl, s)
    ensures EventsOk(ttl, Apply(ttl, s, step))
  {
    var t := Apply(ttl, s, step);
    StepKeepsShape(ttl, s, step);
    StepSummary(ttl, s, step);
    StepMovesResolvers(ttl, s, step);
    StepKeepsCutoffOk(ttl, s, step);
    forall e <- t.hist ensures EventOk(ttl, t, e) {
      if e in s.hist {
        if e.Dropped? { StepMark(ttl, s, step, e.id, e.why, e.at); }
        OldEventStaysOk(ttl, s, t, step, e);
      } else if e in ChangeEvents(s, ChangeOf(s, step)) {
        ChangeEventOk(ttl, s, step, e);
      } else {
        CallEventOk(ttl, s, step, e);
      }
    }
  }

  // ---------------------------------------------------------------- spacing of drops

  /**
   The least distance of two Refresh drops, or of two reaps, of one id: the reaper may erase the cooldown
   entry after one idle TTL, and every entry lives for one idle TTL before it is reaped.
   */
  function Gap(ttl: int, why: Why): int {
    if why == Refreshed then Min(REFRESH_COOLDOWN, ttl) else ttl
  }

  predicate IsDrop(e: Event, id: string, why: Why) {
    e.Dropped? && e.why == why && e.id == id
  }

  /** Any two drops of one id for the reason `why` are at least `gap` apart. */
  ghost predicate Spaced(h: seq<Event>, why: Why, gap: int) {
    forall i, j, id :: 0 <= i < j < |h| && IsDrop(h[i], id, why) && IsDrop(h[j], id, why) ==> gap <= h[j].at - h[i].at
  }

  lemma NewDropIsFar(ttl: int, s: System, step: Step, why: Why, e: Event)
    requires Shape(s) && Enabled(s, step) && EventOk(ttl, s, e) && CutoffOk(ttl, s)
    requires why != FailedEnsure
    requires ChangeOf(s, step).Loss? && IsDrop(e, ChangeOf(s, step).id, why) && ChangeOf(s, step).why == why
    ensures Gap(ttl, why) <= s.now - e.at
  {
  }

  lemma NoDropCalls(s: System, step: Step)
    requires Enabled(s, step)
    ensures forall e <- CallEvents(s, step) :: !e.Dropped?
  {
  }

  lemma StepKeepsSpaced(ttl: int, s: System, step: Step, why: Why)
    requires Shape(s) && Enabled(s, step) && EventsOk(ttl, s) && CutoffOk(ttl, s)
    requires why != FailedEnsure && Spaced(s.hist, why, Gap(ttl, why))
    ensures Spaced(Apply(ttl, s, step).hist, why, Gap(ttl, why))
  {
    var ch, call := ChangeEvents(s, ChangeOf(s, step)), CallEvents(s, step);
    var h := s.hist + (ch + call);
    NoDropCalls(s, step);
    forall i, j, id | 0 <= i < j < |h| && IsDrop(h[i], id, why) && IsDrop(h[j], id, why)
      ensures Gap(ttl, why) <= h[j].at - h[i].at
    {
      if j >= |s.hist| {
        assert h[j] == (ch + call)[j - |s.hist|];
        assert j == |s.hist| && h[j] == ch[0];
        NewDropIsFar(ttl, s, step, why, s.hist[i]);
      }
    }
  }
}
