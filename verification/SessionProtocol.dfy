/**
 The session manager as a concurrent protocol: request handlers (internal/proxy/proxy.go, the part
 of ServeHTTP, handleHTTP and handleWS that touches sessions), one resolver goroutine per session,
 the reaper, and the startup reconciler, interleaved arbitrarily over one clock.

 Every locked section is one step, except that the reaper's scan and the reconciler's loop keep the
 lock over several steps, so that unlocked accesses of other threads can fall in between. Each step
 acts on the shared data through the functions of SessionCore.
 */
module SessionProtocol {
  import opened Common
  import opened SessionCore

  /** Where one resolver goroutine stands. */
  datatype Resolver = Spawned | Calling | Returned(o: Outcome) | Written(o: Outcome) | Done(o: Outcome)

  /**
   Where one handler stands. `orig` is None until Refresh has run, and then names the session that
   was refreshed.
   */
  datatype Pc =
    | Entering(orig: Option<Sid>)              // about to take Get's first lock
    | Waiting(sid: Sid, orig: Option<Sid>)     // in Get's select
    | Dropping(sid: Sid, orig: Option<Sid>)    // saw a failure, about to take Get's second lock
    | Got(sid: Sid)                            // ServeHTTP's Get returned a session
    | Serving(sid: Sid, orig: Option<Sid>)     // round trips or dials against sid
    | Opening(sid: Sid)                        // ConnOpened between its two accesses
    | Tunnelling(sid: Sid)                     // bytes flow
    | Leaving(sid: Sid)                        // ConnClosed between its two accesses
    | Ending(sid: Sid)                         // Refresh failed
    | Finished

  datatype Handler = Handler(id: string, ws: bool, pc: Pc)

  datatype Reaper =
    | Sleeping
    | Primed(cutoff: int)
    | Scanning(cutoff: int, todo: set<string>, victims: seq<Sid>)
    | Deleting(victims: seq<Sid>, calling: bool)

  datatype Reconciler = Off | Reconciling(todo: seq<string>, at: int)

  datatype Why = FailedEnsure | Refreshed | Reaped

  datatype GetResult = GotSession(endpoint: Endpoint) | GotError(err: string) | GotCancelled

  /**
   What an observer of the whole run would write down. `byRefresh` marks a creation by the Get inside Refresh;
   Noted is a Refresh that got past the cooldown test, whether it drops a session or not.
   */
  datatype Event =
    | Created(sid: Sid, id: string, byRefresh: bool, at: int)
    | Called(sid: Sid, id: string)
    | Resolved(sid: Sid, o: Outcome)
    | Closed(sid: Sid)
    | Dropped(sid: Sid, id: string, why: Why, at: int)
    | Noted(id: string, at: int)
    | GetReturned(id: string, sid: Sid, res: GetResult)
    | DeleteCalled(sid: Sid)
    | Marked(sid: Sid, at: int)

  datatype System = System(now: int, core: Core, resolvers: seq<Resolver>, handlers: seq<Handler>,
                           reaper: Reaper, recon: Reconciler, hist: seq<Event>)

  const INITIAL := System(0, EMPTY, [], [], Sleeping, Off, [])

  datatype Step =
    | Tick(d: nat)
    | Arrive(id: string, ws: bool)
    | Enter(h: nat)
    | SeeReady(h: nat)
    | Cancel(h: nat)
    | DropFail(h: nat)
    | Mark(h: nat)
    | Refresh(h: nat)
    | Open(h: nat)
    | Shut(h: nat)
    | End(h: nat)
    | Call(sid: Sid)
    | Return(sid: Sid, o: Outcome)
    | Write(sid: Sid)
    | CloseChan(sid: Sid)
    | Prime
    | Lock
    | Visit(id: string)
    | Unlock
    | BeginDelete
    | EndDelete
    | Rest
    | ReconBegin(ids: seq<string>)
    | ReconOne
    | ReconEnd

  /** Nobody holds the mutex. */
  predicate LockFree(s: System) {
    !s.reaper.Scanning? && !s.recon.Reconciling?
  }

  predicate Valid(s: System, sid: Sid) {
    sid < |s.core.recs| && sid < |s.resolvers|
  }

  function PcOf(s: System, h: nat): Pc
    requires h < |s.handlers|
  {
    s.handlers[h].pc
  }

  predicate HandlerEnabled(s: System, step: Step)
  {
    match step
    case Enter(h) => h < |s.handlers| && PcOf(s, h).Entering? && LockFree(s)
    case SeeReady(h) =>
      && h < |s.handlers| && PcOf(s, h).Waiting?
      && Valid(s, PcOf(s, h).sid) && s.core.recs[PcOf(s, h).sid].ready
    case Cancel(h) => h < |s.handlers| && PcOf(s, h).Waiting?
    case DropFail(h) =>
      && h < |s.handlers| && PcOf(s, h).Dropping? && LockFree(s)
      && Valid(s, PcOf(s, h).sid) && s.core.recs[PcOf(s, h).sid].err.Some?
    case Mark(h) =>
      && h < |s.handlers| && (PcOf(s, h).Got? || PcOf(s, h).Opening? || PcOf(s, h).Leaving?)
      && Valid(s, PcOf(s, h).sid)
    case Refresh(h) =>
      && h < |s.handlers| && PcOf(s, h).Serving? && PcOf(s, h).orig.None? && LockFree(s)
      && Valid(s, PcOf(s, h).sid)
    case Open(h) => h < |s.handlers| && PcOf(s, h).Serving? && s.handlers[h].ws && Valid(s, PcOf(s, h).sid)
    case Shut(h) => h < |s.handlers| && PcOf(s, h).Tunnelling? && Valid(s, PcOf(s, h).sid)
    case End(h) => h < |s.handlers| && (PcOf(s, h).Serving? || PcOf(s, h).Ending?) && Valid(s, Served(PcOf(s, h)))
    case _ => false
  }

  predicate OtherEnabled(s: System, step: Step)
  {
    match step
    case Tick(_) => true
    case Arrive(_, _) => true
    case Call(sid) => Valid(s, sid) && s.resolvers[sid].Spawned?
    case Return(sid, _) => Valid(s, sid) && s.resolvers[sid].Calling?
    case Write(sid) => Valid(s, sid) && s.resolvers[sid].Returned?
    case CloseChan(sid) => Valid(s, sid) && s.resolvers[sid].Written?
    case Prime => s.reaper.Sleeping?
    case Lock => s.reaper.Primed? && LockFree(s)
    case Visit(id) => s.reaper.Scanning? && id in s.reaper.todo
    case Unlock => s.reaper.Scanning? && s.reaper.todo == {}
    case BeginDelete => s.reaper.Deleting? && !s.reaper.calling && s.reaper.victims != []
    case EndDelete => s.reaper.Deleting? && s.reaper.calling && s.reaper.victims != []
    case Rest => s.reaper.Deleting? && !s.reaper.calling && s.reaper.victims == []
    case ReconBegin(_) => s.recon.Off? && LockFree(s)
    case ReconOne => s.recon.Reconciling? && s.recon.todo != []
    case ReconEnd => s.recon.Reconciling? && s.recon.todo == []
    case _ => false
  }

  predicate Enabled(s: System, step: Step) {
    HandlerEnabled(s, step) || OtherEnabled(s, step)
  }

  /** The session whose activity handleHTTP marks at the end: the one that ServeHTTP's Get returned. */
  function Served(pc: Pc): Sid
    requires pc.Serving? || pc.Ending?
  {
    if pc.Serving? && pc.orig.Some? then pc.orig.value else pc.sid
  }

  // ---------------------------------------------------------------- how steps change the system

  function Goto(s: System, h: nat, pc: Pc): System
    requires h < |s.handlers|
  {
    s.(handlers := s.handlers[h := s.handlers[h].(pc := pc)])
  }

  /** The core `c` may hold one more session, and then its resolver goroutine starts. */
  function Spawn(s: System, c: Core): System {
    s.(core := c, resolvers := if |c.recs| > |s.core.recs| then s.resolvers + [Spawned] else s.resolvers)
  }

  predicate Filed(c: Core, id: string, sid: Sid) {
    id in c.sessions && c.sessions[id] == sid
  }

  function DoEnter(s: System, h: nat): System
    requires HandlerEnabled(s, Enter(h))
  {
    var id := s.handlers[h].id;
    var (c, sid) := GetEnter(s.core, id, s.now);
    Goto(Spawn(s, c), h, Waiting(sid, PcOf(s, h).orig))
  }

  function DoSeeReady(s: System, h: nat): System
    requires HandlerEnabled(s, SeeReady(h))
  {
    var Waiting(sid, orig) := PcOf(s, h);
    Goto(s, h, if s.core.recs[sid].err.Some? then Dropping(sid, orig)
               else if orig.None? then Got(sid)
               else Serving(sid, orig))
  }

  /** Where a handler goes whose Get failed. */
  function AfterFailedGet(orig: Option<Sid>): Pc {
    match orig
    case None => Finished
    case Some(o) => Ending(o)
  }

  function DoCancel(s: System, h: nat): System
    requires HandlerEnabled(s, Cancel(h))
  {
    Goto(s, h, AfterFailedGet(PcOf(s, h).orig))
  }

  function DoDropFail(s: System, h: nat): System
    requires HandlerEnabled(s, DropFail(h))
  {
    var Dropping(sid, orig) := PcOf(s, h);
    Goto(s.(core := DropFailed(s.core, s.handlers[h].id, sid)), h, AfterFailedGet(orig))
  }

  function DoMark(s: System, h: nat): System
    requires HandlerEnabled(s, Mark(h))
  {
    var sid := PcOf(s, h).sid;
    var next :=
      match PcOf(s, h)
      case Got(_) => Serving(sid, None)
      case Opening(_) => Tunnelling(sid)
      case _ => Finished;
    Goto(s.(core := Touch(s.core, sid, s.now)), h, next)
  }

  function DoRefresh(s: System, h: nat): System
    requires HandlerEnabled(s, Refresh(h))
  {
    var stale := PcOf(s, h).sid;
    var id := s.core.recs[stale].id;
    if CoolingDown(s.core, id, s.now) then
      Goto(s, h, if id in s.core.sessions then Serving(s.core.sessions[id], Some(stale)) else Entering(Some(stale)))
    else
      Goto(s.(core := RefreshDrop(s.core, id, stale, s.now)), h, Entering(Some(stale)))
  }

  function DoOpen(s: System, h: nat): System
    requires HandlerEnabled(s, Open(h))
  {
    var sid := PcOf(s, h).sid;
    Goto(s.(core := AddConn(s.core, sid, 1)), h, Opening(sid))
  }

  function DoShut(s: System, h: nat): System
    requires HandlerEnabled(s, Shut(h))
  {
    var sid := PcOf(s, h).sid;
    Goto(s.(core := AddConn(s.core, sid, -1)), h, Leaving(sid))
  }

  function DoEnd(s: System, h: nat): System
    requires HandlerEnabled(s, End(h))
  {
    var o := Served(PcOf(s, h));
    Goto(if s.handlers[h].ws then s else s.(core := Touch(s.core, o, s.now)), h, Finished)
  }

  function DoVisit(s: System, id: string): System
    requires OtherEnabled(s, Visit(id))
  {
    var Scanning(cutoff, todo, victims) := s.reaper;
    var found := if Doomed(s.core, id, cutoff) then [s.core.sessions[id]] else [];
    s.(core := ReapVisit(s.core, id, cutoff), reaper := Scanning(cutoff, todo - {id}, victims + found))
  }

  function DoReconOne(s: System): System
    requires OtherEnabled(s, ReconOne)
  {
    var Reconciling(todo, at) := s.recon;
    Spawn(s, ReconcileOne(s.core, todo[0], at)).(recon := Reconciling(todo[1..], at))
  }

  function HandlerAct(s: System, step: Step): System
    requires HandlerEnabled(s, step)
  {
    match step
    case Enter(h) => DoEnter(s, h)
    case SeeReady(h) => DoSeeReady(s, h)
    case Cancel(h) => DoCancel(s, h)
    case DropFail(h) => DoDropFail(s, h)
    case Mark(h) => DoMark(s, h)
    case Refresh(h) => DoRefresh(s, h)
    case Open(h) => DoOpen(s, h)
    case Shut(h) => DoShut(s, h)
    case End(h) => DoEnd(s, h)
  }

  function OtherAct(ttl: int, s: System, step: Step): System
    requires OtherEnabled(s, step)
  {
    match step
    case Tick(d) => s.(now := s.now + d)
    case Arrive(id, ws) => s.(handlers := s.handlers + [Handler(id, ws, Entering(None))])
    case Call(sid) => s.(resolvers := s.resolvers[sid := Calling])
    case Return(sid, o) => s.(resolvers := s.resolvers[sid := Returned(o)])
    case Write(sid) =>
      var o := s.resolvers[sid].o;
      s.(core := Publish(s.core, sid, o), resolvers := s.resolvers[sid := Written(o)])
    case CloseChan(sid) =>
      s.(core := CloseReady(s.core, sid), resolvers := s.resolvers[sid := Done(s.resolvers[sid].o)])
    case Prime => s.(reaper := Primed(s.now - ttl))
    case Lock => s.(reaper := Scanning(s.reaper.cutoff, s.core.sessions.Keys, []))
    case Visit(id) => DoVisit(s, id)
    case Unlock => s.(reaper := Deleting(s.reaper.victims, false))
    case BeginDelete => s.(reaper := Deleting(s.reaper.victims, true))
    case EndDelete => s.(reaper := Deleting(s.reaper.victims[1..], false))
    case Rest => s.(reaper := Sleeping)
    case ReconBegin(ids) => s.(recon := Reconciling(ids, s.now))
    case ReconOne => DoReconOne(s)
    case ReconEnd => s.(recon := Off)
  }

  // ---------------------------------------------------------------- the history

  /** What a step does to the set of map entries. */
  datatype Change = NoChange | Creation(id: string, byRefresh: bool) | Loss(id: string, why: Why)

  function ChangeOf(s: System, step: Step): Change
    requires Enabled(s, step)
  {
    match step
    case Enter(h) =>
      if s.handlers[h].id in s.core.sessions then NoChange else Creation(s.handlers[h].id, PcOf(s, h).orig.Some?)
    case DropFail(h) =>
      if Filed(s.core, s.handlers[h].id, PcOf(s, h).sid) then Loss(s.handlers[h].id, FailedEnsure) else NoChange
    case Refresh(h) =>
      var stale := PcOf(s, h).sid;
      var id := s.core.recs[stale].id;
      if !CoolingDown(s.core, id, s.now) && Filed(s.core, id, stale) then Loss(id, Refreshed) else NoChange
    case Visit(id) => if Doomed(s.core, id, s.reaper.cutoff) then Loss(id, Reaped) else NoChange
    case ReconOne => if s.recon.todo[0] in s.core.sessions then NoChange else Creation(s.recon.todo[0], false)
    case _ => NoChange
  }

  function ChangeEvents(s: System, ch: Change): seq<Event> {
    match ch
    case NoChange => []
    case Creation(id, byRefresh) => [Created(|s.core.recs|, id, byRefresh, s.now)]
    case Loss(id, why) => if id in s.core.sessions then [Dropped(s.core.sessions[id], id, why, s.now)] else []
  }

  function CallEvents(s: System, step: Step): seq<Event>
    requires Enabled(s, step)
  {
    match step
    case SeeReady(h) =>
      var r := s.core.recs[PcOf(s, h).sid];
      if r.err.Some? then [] else [GetReturned(s.handlers[h].id, PcOf(s, h).sid, GotSession(r.endpoint))]
    case Cancel(h) => [GetReturned(s.handlers[h].id, PcOf(s, h).sid, GotCancelled)]
    case DropFail(h) =>
      [GetReturned(s.handlers[h].id, PcOf(s, h).sid, GotError(s.core.recs[PcOf(s, h).sid].err.value))]
    case Refresh(h) =>
      var id := s.core.recs[PcOf(s, h).sid].id;
      if CoolingDown(s.core, id, s.now) then [] else [Noted(id, s.now)]
    case Mark(h) => [Marked(PcOf(s, h).sid, s.now)]
    case End(h) => if s.handlers[h].ws then [] else [Marked(Served(PcOf(s, h)), s.now)]
    case Call(sid) => [Called(sid, s.core.recs[sid].id)]
    case Return(sid, o) => [Resolved(sid, o)]
    case CloseChan(sid) => [Closed(sid)]
    case BeginDelete => [DeleteCalled(s.reaper.victims[0])]
    case _ => []
  }

  /** What an observer writes down about a step. */
  function Events(s: System, step: Step): seq<Event>
    requires Enabled(s, step)
  {
    ChangeEvents(s, ChangeOf(s, step)) + CallEvents(s, step)
  }

  /** What a step does, except to the history, under the idle TTL `ttl`. */
  function Act(ttl: int, s: System, step: Step): System
    requires Enabled(s, step)
  {
    if HandlerEnabled(s, step) then HandlerAct(s, step) else OtherAct(ttl, s, step)
  }

  function Apply(ttl: int, s: System, step: Step): System
    requires Enabled(s, step)
  {
    Act(ttl, s, step).(hist := s.hist + Events(s, step))
  }

  // ---------------------------------------------------------------- runs

  /** Performs `steps` from `s`; None when one of them is not enabled at its turn. */
  function Run(ttl: int, s: System, steps: seq<Step>): Option<System>
    decreases |steps|
  {
    if steps == [] then Some(s)
    else if Enabled(s, steps[0]) then Run(ttl, Apply(ttl, s, steps[0]), steps[1..])
    else None
  }

  /** `t` is reached from `s`, by any interleaving. */
  ghost predicate Reaches(ttl: int, s: System, t: System) {
    exists steps :: Run(ttl, s, steps) == Some(t)
  }

  /** `t` is reached from the start of the proxy. */
  ghost predicate Reachable(ttl: int, t: System) {
    Reaches(ttl, INITIAL, t)
  }
}
