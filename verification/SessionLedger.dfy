/** Bookkeeping over whole runs: every session created, dropped, resolved and deleted is accounted for. */
module SessionLedger {
  import opened Common
  import opened SessionCore
  import opened SessionProtocol
  import opened SessionShape

  // ---------------------------------------------------------------- counting events

  datatype Query =
    | OfCreated(id: string)
    | OfRefreshCreated(id: string)
    | OfDropped(id: string, why: Why)
    | OfDropOf(sid: Sid)
    | OfReap(sid: Sid)
    | OfDelete(sid: Sid)
    | OfCalled(id: string)
    | OfResolved(sid: Sid)
    | OfClosed(sid: Sid)

  predicate Matches(q: Query, e: Event) {
    match q
    case OfCreated(id) => e.Created? && e.id == id
    case OfRefreshCreated(id) => e.Created? && e.id == id && e.byRefresh
    case OfDropped(id, why) => e.Dropped? && e.id == id && e.why == why
    case OfDropOf(sid) => e.Dropped? && e.sid == sid
    case OfReap(sid) => e.Dropped? && e.sid == sid && e.why == Reaped
    case OfDelete(sid) => e.DeleteCalled? && e.sid == sid
    case OfCalled(id) => e.Called? && e.id == id
    case OfResolved(sid) => e.Resolved? && e.sid == sid
    case OfClosed(sid) => e.Closed? && e.sid == sid
  }

  function Count(q: Query, h: seq<Event>): nat
    decreases |h|
  {
    if h == [] then 0 else Count(q, h[..|h| - 1]) + Bit(Matches(q, h[|h| - 1]))
  }

  /** The count over at most one event. */
  function One(q: Query, es: seq<Event>): nat {
    if es == [] then 0 else Bit(Matches(q, es[0]))
  }

  lemma CountAppend(h: seq<Event>, es: seq<Event>)
    requires |es| <= 1
    ensures forall q :: Count(q, h + es) == Count(q, h) + One(q, es)
  {
    if es == [] {
      assert h + es == h;
    } else {
      assert (h + es)[..|h|] == h;
    }
  }

  /** Every count has grown by what the two lists hold. */
  ghost predicate Counted(h: seq<Event>, h': seq<Event>, es: seq<Event>, call: seq<Event>) {
    forall q :: Count(q, h') == Count(q, h) + One(q, es) + One(q, call)
  }

  lemma CountTwice(h: seq<Event>, es: seq<Event>, call: seq<Event>)
    requires |es| <= 1 && |call| <= 1
    ensures Counted(h, h + (es + call), es, call)
  {
    CountAppend(h, es);
    CountAppend(h + es, call);
    assert h + (es + call) == h + es + call;
  }

  // ---------------------------------------------------------------- what a step does to the map

  /** The recorded change is what really happened to the map and the allocated sessions. */
  predicate Changed(c: Core, d: Core, ch: Change) {
    match ch
    case NoChange => d.sessions == c.sessions && |d.recs| == |c.recs|
    case Creation(x, _) =>
      && x !in c.sessions
      && d.sessions == c.sessions[x := |c.recs|]
      && |d.recs| == |c.recs| + 1
      && d.recs[|c.recs|].id == x
    case Loss(x, _) => x in c.sessions && d.sessions == c.sessions - {x} && |d.recs| == |c.recs|
  }

  /** No change puts a session back that is out of the map. */
  lemma GoneStaysGone(c: Core, d: Core, ch: Change, sid: Sid)
    requires Changed(c, d, ch) && RecsAdvance(c, d) && sid < |c.recs| && !InMap(c, sid)
    ensures !InMap(d, sid)
  {
    assert Advances(c.recs[sid], d.recs[sid]);
  }

  lemma HandlerChanges(s: System, step: Step)
    requires Shape(s) && HandlerEnabled(s, step)
    ensures Changed(s.core, HandlerAct(s, step).core, ChangeOf(s, step))
  {
  }

  lemma OtherChanges(ttl: int, s: System, step: Step)
    requires Shape(s) && OtherEnabled(s, step)
    ensures Changed(s.core, OtherAct(ttl, s, step).core, ChangeOf(s, step))
  {
  }

  predicate IsMapEvent(e: Event) {
    e.Created? || e.Dropped?
  }

  /** What the books need to know about a step from `s` to `t`. */
  ghost predicate Summary(s: System, t: System, ch: Change, call: seq<Event>) {
    && Changed(s.core, t.core, ch)
    && RecsAdvance(s.core, t.core)
    && Counted(s.hist, t.hist, ChangeEvents(s, ch), call)
    && |call| <= 1
    && (forall e <- call :: !IsMapEvent(e))
  }

  lemma StepSummary(ttl: int, s: System, step: Step)
    requires Shape(s) && Enabled(s, step)
    ensures Summary(s, Apply(ttl, s, step), ChangeOf(s, step), CallEvents(s, step))
  {
    if HandlerEnabled(s, step) { HandlerChanges(s, step); } else { OtherChanges(ttl, s, step); }
    StepKeepsShape(ttl, s, step);
    CountTwice(s.hist, ChangeEvents(s, ChangeOf(s, step)), CallEvents(s, step));
  }

  // ---------------------------------------------------------------- the books balance

  function Drops(id: string, h: seq<Event>): nat {
    Count(OfDropped(id, FailedEnsure), h) + Count(OfDropped(id, Refreshed), h) + Count(OfDropped(id, Reaped), h)
  }

  /** Sessions created for an id = sessions dropped for it + the one in the map, if any. */
  ghost predicate Conserved(s: System) {
    forall id :: ConservedFor(s, id)
  }

  /** A session out of the map has been dropped exactly once, one in the map never. */
  ghost predicate DroppedOnce(s: System) {
    forall sid: Sid :: Count(OfDropOf(sid), s.hist) == Bit(sid < |s.core.recs| && !InMap(s.core, sid))
  }

  /** The session of `id` in the map has a resolver that has not called Ensure yet. */
  predicate AboutToCall(s: System, id: string) {
    id in s.core.sessions && s.core.sessions[id] < |s.resolvers| && s.resolvers[s.core.sessions[id]].Spawned?
  }

  /** Each session gets one Ensure call. */
  ghost predicate CallsMatch(s: System) {
    forall id :: Count(OfCalled(id), s.hist) + Bit(AboutToCall(s, id)) == Count(OfCreated(id), s.hist)
  }

  predicate HasResult(s: System, sid: Sid) {
    sid < |s.resolvers| && (s.resolvers[sid].Returned? || s.resolvers[sid].Written? || s.resolvers[sid].Done?)
  }

  /** Each session gets one result, and its channel is closed once. */
  ghost predicate ClosedOnce(s: System) {
    && (forall sid: Sid :: Count(OfResolved(sid), s.hist) == Bit(HasResult(s, sid)))
    && (forall sid: Sid :: Count(OfClosed(sid), s.hist) == Bit(IsDone(s, sid)))
  }

  /** The victims whose Delete has not been called yet. */
  function Pending(r: Reaper): seq<Sid> {
    match r
    case Scanning(_, _, victims) => victims
    case Deleting(victims, calling) => if calling && victims != [] then victims[1..] else victims
    case _ => []
  }

  /** How many Delete calls the reaper still owes a session. */
  function Owed(r: Reaper, sid: Sid): nat {
    multiset(Pending(r))[sid]
  }

  ghost predicate DeletesMatch(s: System) {
    forall sid: Sid :: Count(OfReap(sid), s.hist) == Count(OfDelete(sid), s.hist) + Owed(s.reaper, sid)
  }

  predicate Creates(ch: Change, id: string) {
    ch.Creation? && ch.id == id
  }

  /** What a change adds to the count of a query about map events. */
  function Tally(s: System, ch: Change, q: Query): nat {
    match q
    case OfCreated(id) => Bit(Creates(ch, id))
    case OfDropped(id, why) => Bit(ch == Loss(id, why))
    case OfDropOf(sid) => Bit(ch.Loss? && ch.id in s.core.sessions && s.core.sessions[ch.id] == sid)
    case OfReap(sid) => Bit(ch.Loss? && ch.why == Reaped && ch.id in s.core.sessions && s.core.sessions[ch.id] == sid)
    case _ => 0
  }

  lemma MapCounts(s: System, t: System, ch: Change, call: seq<Event>, q: Query)
    requires Summary(s, t, ch, call) && (q.OfCreated? || q.OfDropped? || q.OfDropOf? || q.OfReap?)
    ensures Count(q, t.hist) == Count(q, s.hist) + Tally(s, ch, q)
  {
    assert call == [] || !IsMapEvent(call[0]);
  }

  predicate ConservedFor(s: System, id: string) {
    Count(OfCreated(id), s.hist) == Drops(id, s.hist) + Bit(id in s.core.sessions)
  }

  lemma KeepsConservedFor(s: System, t: System, ch: Change, call: seq<Event>, id: string)
    requires Summary(s, t, ch, call) && ConservedFor(s, id)
    ensures ConservedFor(t, id)
  {
    MapCounts(s, t, ch, call, OfCreated(id));
    MapCounts(s, t, ch, call, OfDropped(id, FailedEnsure));
    MapCounts(s, t, ch, call, OfDropped(id, Refreshed));
    MapCounts(s, t, ch, call, OfDropped(id, Reaped));
  }

  lemma KeepsConserved(s: System, t: System, ch: Change, call: seq<Event>)
    requires Summary(s, t, ch, call) && Conserved(s)
    ensures Conserved(t)
  {
    forall id ensures ConservedFor(t, id) { KeepsConservedFor(s, t, ch, call, id); }
  }

  lemma KeepsDroppedOnce(s: System, t: System, ch: Change, call: seq<Event>)
    requires WellFormed(s.core) && Summary(s, t, ch, call) && DroppedOnce(s)
    ensures DroppedOnce(t)
  {
    forall sid: Sid
      ensures Count(OfDropOf(sid), t.hist) == Bit(sid < |t.core.recs| && !InMap(t.core, sid))
    {
      MapCounts(s, t, ch, call, OfDropOf(sid));
      if sid < |s.core.recs| { assert Advances(s.core.recs[sid], t.core.recs[sid]); }
    }
  }

  // ---------------------------------------------------------------- calls, results, closings

  /** Steps of a resolver, as the books see them. */
  predicate ResolversMoved(s: System, t: System, step: Step, ch: Change)
  {
    match step
    case Call(sid) => Valid(s, sid) && s.resolvers[sid].Spawned? && t.resolvers == s.resolvers[sid := Calling]
    case Return(sid, o) => Valid(s, sid) && s.resolvers[sid].Calling? && t.resolvers == s.resolvers[sid := Returned(o)]
    case Write(sid) =>
      && Valid(s, sid) && s.resolvers[sid].Returned?
      && t.resolvers == s.resolvers[sid := Written(s.resolvers[sid].o)]
    case CloseChan(sid) =>
      && Valid(s, sid) && s.resolvers[sid].Written?
      && t.resolvers == s.resolvers[sid := Done(s.resolvers[sid].o)]
    case _ => t.resolvers == if ch.Creation? then s.resolvers + [Spawned] else s.resolvers
  }

  lemma HandlerMovesResolvers(s: System, step: Step)
    requires HandlerEnabled(s, step)
    ensures ResolversMoved(s, HandlerAct(s, step), step, ChangeOf(s, step))
  {
  }

  lemma OtherMovesResolvers(ttl: int, s: System, step: Step)
    requires OtherEnabled(s, step)
    ensures ResolversMoved(s, OtherAct(ttl, s, step), step, ChangeOf(s, step))
  {
  }

  lemma StepMovesResolvers(ttl: int, s: System, step: Step)
    requires Enabled(s, step)
    ensures ResolversMoved(s, Apply(ttl, s, step), step, ChangeOf(s, step))
  {
    if HandlerEnabled(s, step) { HandlerMovesResolvers(s, step); } else { OtherMovesResolvers(ttl, s, step); }
  }

  /** The event by which a resolver's step is noted. */
  function ResolverEvents(s: System, step: Step): seq<Event> {
    match step
    case Call(sid) => if sid < |s.core.recs| then [Called(sid, s.core.recs[sid].id)] else []
    case Return(sid, o) => [Resolved(sid, o)]
    case CloseChan(sid) => [Closed(sid)]
    case _ => []
  }

  predicate IsResolverEvent(e: Event) {
    e.Called? || e.Resolved? || e.Closed?
  }

  /** The resolver events among the call events are exactly those of the step. */
  lemma CallEventsOfResolvers(s: System, step: Step)
    requires Enabled(s, step)
    ensures CallEvents(s, step) == ResolverEvents(s, step)
         || (ResolverEvents(s, step) == [] && forall e <- CallEvents(s, step) :: !IsResolverEvent(e))
  {
  }

  lemma ResolverCounts(s: System, t: System, step: Step, q: Query)
    requires Enabled(s, step) && Summary(s, t, ChangeOf(s, step), CallEvents(s, step))
    requires q.OfCalled? || q.OfResolved? || q.OfClosed?
    ensures Count(q, t.hist) == Count(q, s.hist) + One(q, ResolverEvents(s, step))
  {
    CallEventsOfResolvers(s, step);
    var call := CallEvents(s, step);
    assert call == [] || call[0] in call;
  }

  /** The entry a step removes belongs to a session that is ready. */
  lemma OnlyReadyLeave(s: System, step: Step)
    requires Shape(s) && Enabled(s, step) && ChangeOf(s, step).Loss?
    ensures ChangeOf(s, step).id in s.core.sessions && s.core.recs[s.core.sessions[ChangeOf(s, step).id]].ready
  {
    if step.DropFail? || step.Refresh? { assert HandlerOk(s.core, s.handlers[step.h]); }
  }

  lemma KeepsCallsMatch(s: System, t: System, step: Step)
    requires Shape(s) && Enabled(s, step)
    requires Summary(s, t, ChangeOf(s, step), CallEvents(s, step)) && ResolversMoved(s, t, step, ChangeOf(s, step))
    requires CallsMatch(s)
    ensures CallsMatch(t)
  {
    var ch := ChangeOf(s, step);
    if step.Call? { assert ResolverAgrees(s.core.recs[step.sid], s.resolvers[step.sid]); }
    if ch.Loss? {
      OnlyReadyLeave(s, step);
      assert ResolverAgrees(s.core.recs[s.core.sessions[ch.id]], s.resolvers[s.core.sessions[ch.id]]);
    }
    forall id
      ensures Count(OfCalled(id), t.hist) + Bit(AboutToCall(t, id)) == Count(OfCreated(id), t.hist)
    {
      MapCounts(s, t, ch, CallEvents(s, step), OfCreated(id));
      ResolverCounts(s, t, step, OfCalled(id));
      assert Count(OfCalled(id), s.hist) + Bit(AboutToCall(s, id)) == Count(OfCreated(id), s.hist);
      DueCalls(s, t, step, id);
    }
  }

  /** A creation makes one Ensure call due, and only a Call step discharges one. */
  lemma DueCalls(s: System, t: System, step: Step, id: string)
    requires |s.resolvers| == |s.core.recs| && WellFormed(s.core) && UnreadyAreFiled(s.core) && Enabled(s, step)
    requires step.Call? ==> !s.core.recs[step.sid].ready
    requires Changed(s.core, t.core, ChangeOf(s, step)) && ResolversMoved(s, t, step, ChangeOf(s, step))
    requires ChangeOf(s, step).Loss? ==> !AboutToCall(s, ChangeOf(s, step).id)
    ensures Bit(AboutToCall(t, id)) == Bit(AboutToCall(s, id)) + Bit(Creates(ChangeOf(s, step), id))
                                     - One(OfCalled(id), ResolverEvents(s, step))
  {
  }

  /** Exactly the Return and CloseChan steps of a session give it a result and close its channel. */
  lemma ResultsMove(s: System, t: System, step: Step, ch: Change, sid: Sid)
    requires Shape(s) && ResolversMoved(s, t, step, ch)
    ensures Bit(HasResult(t, sid)) == Bit(HasResult(s, sid)) + One(OfResolved(sid), ResolverEvents(s, step))
  {
  }

  predicate IsDone(s: System, sid: Sid) {
    sid < |s.resolvers| && s.resolvers[sid].Done?
  }

  lemma ClosingsMove(s: System, t: System, step: Step, ch: Change, sid: Sid)
    requires Shape(s) && ResolversMoved(s, t, step, ch)
    ensures Bit(IsDone(t, sid)) == Bit(IsDone(s, sid)) + One(OfClosed(sid), ResolverEvents(s, step))
  {
  }

  lemma KeepsClosedOnce(s: System, t: System, step: Step)
    requires Shape(s) && Enabled(s, step)
    requires Summary(s, t, ChangeOf(s, step), CallEvents(s, step)) && ResolversMoved(s, t, step, ChangeOf(s, step))
    requires ClosedOnce(s)
    ensures ClosedOnce(t)
  {
    forall sid: Sid
      ensures Count(OfResolved(sid), t.hist) == Bit(HasResult(t, sid))
      ensures Count(OfClosed(sid), t.hist) == Bit(IsDone(t, sid))
    {
      ResolverCounts(s, t, step, OfResolved(sid));
      ResolverCounts(s, t, step, OfClosed(sid));
      ResultsMove(s, t, step, ChangeOf(s, step), sid);
      ClosingsMove(s, t, step, ChangeOf(s, step), sid);
    }
  }

  // ---------------------------------------------------------------- deletions

  predicate ReaperMoved(s: System, t: System, step: Step, ch: Change) {
    match step
    case Prime => s.reaper.Sleeping? && t.reaper.Primed?
    case Lock => s.reaper.Primed? && t.reaper.Scanning? && t.reaper.victims == []
    case Visit(id) =>
      && s.reaper.Scanning? && t.reaper.Scanning?
      && t.reaper.victims == s.reaper.victims
           + (if ch == Loss(id, Reaped) && id in s.core.sessions then [s.core.sessions[id]] else [])
    case Unlock => s.reaper.Scanning? && t.reaper == Deleting(s.reaper.victims, false)
    case BeginDelete =>
      && s.reaper.Deleting? && !s.reaper.calling && s.reaper.victims != []
      && t.reaper == Deleting(s.reaper.victims, true)
    case EndDelete =>
      && s.reaper.Deleting? && s.reaper.calling && s.reaper.victims != []
      && t.reaper == Deleting(s.reaper.victims[1..], false)
    case Rest => s.reaper == Deleting([], false) && t.reaper == Sleeping
    case _ => t.reaper == s.reaper
  }

  lemma StepMovesReaper(ttl: int, s: System, step: Step)
    requires Enabled(s, step)
    ensures ReaperMoved(s, Apply(ttl, s, step), step, ChangeOf(s, step))
    ensures ChangeOf(s, step).Loss? && ChangeOf(s, step).why == Reaped ==> step == Visit(ChangeOf(s, step).id)
  {
  }

  /** What a step adds to the number of Delete calls made for `sid`. */
  function DeleteTally(s: System, step: Step, sid: Sid): nat {
    Bit(step.BeginDelete? && s.reaper.Deleting? && s.reaper.victims != [] && s.reaper.victims[0] == sid)
  }

  lemma DeleteCounts(s: System, t: System, step: Step, sid: Sid)
    requires Enabled(s, step) && Summary(s, t, ChangeOf(s, step), CallEvents(s, step))
    ensures Count(OfDelete(sid), t.hist) == Count(OfDelete(sid), s.hist) + DeleteTally(s, step, sid)
  {
    var call := CallEvents(s, step);
    assert step.BeginDelete? || call == [] || !call[0].DeleteCalled?;
  }

  lemma PendingMoves(s: System, t: System, step: Step, ch: Change)
    requires ReaperMoved(s, t, step, ch) && Changed(s.core, t.core, ch)
    requires ch.Loss? && ch.why == Reaped ==> step == Visit(ch.id)
    ensures if ch.Loss? && ch.why == Reaped then Pending(t.reaper) == Pending(s.reaper) + [s.core.sessions[ch.id]]
            else if step.BeginDelete? then
              && Pending(s.reaper) != [] && s.reaper.victims == Pending(s.reaper)
              && Pending(t.reaper) == Pending(s.reaper)[1..]
            else Pending(t.reaper) == Pending(s.reaper)
  {
  }

  lemma OwedMoves(s: System, t: System, step: Step, ch: Change, sid: Sid)
    requires ReaperMoved(s, t, step, ch) && Changed(s.core, t.core, ch)
    requires ch.Loss? && ch.why == Reaped ==> step == Visit(ch.id)
    ensures Owed(t.reaper, sid) == Owed(s.reaper, sid) + Tally(s, ch, OfReap(sid)) - DeleteTally(s, step, sid)
  {
    PendingMoves(s, t, step, ch);
    if step.BeginDelete? {
      assert Pending(s.reaper) == [Pending(s.reaper)[0]] + Pending(s.reaper)[1..];
    }
  }

  lemma KeepsDeletesMatch(s: System, t: System, step: Step)
    requires Enabled(s, step)
    requires Summary(s, t, ChangeOf(s, step), CallEvents(s, step)) && ReaperMoved(s, t, step, ChangeOf(s, step))
    requires ChangeOf(s, step).Loss? && ChangeOf(s, step).why == Reaped ==> step == Visit(ChangeOf(s, step).id)
    requires DeletesMatch(s)
    ensures DeletesMatch(t)
  {
    var ch := ChangeOf(s, step);
    forall sid: Sid
      ensures Count(OfReap(sid), t.hist) == Count(OfDelete(sid), t.hist) + Owed(t.reaper, sid)
    {
      MapCounts(s, t, ch, CallEvents(s, step), OfReap(sid));
      DeleteCounts(s, t, step, sid);
      OwedMoves(s, t, step, ch, sid);
    }
  }
}
