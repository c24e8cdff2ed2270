/** The structural invariant of the session protocol, from which single flight follows. */
module SessionShape {
  import opened Common
  import opened SessionCore
  import opened SessionProtocol

  // ---------------------------------------------------------------- sessions only advance

  /** What may happen to one session object: publication once, and activity. */
  predicate Advances(r: Rec, q: Rec) {
    && q.id == r.id
    && q.created == r.created
    && r.lastActive <= q.lastActive
    && (r.ready ==> q.ready && q.endpoint == r.endpoint && q.err == r.err)
  }

  predicate RecsAdvance(c: Core, d: Core) {
    && |c.recs| <= |d.recs|
    && forall sid :: 0 <= sid < |c.recs| ==> Advances(c.recs[sid], d.recs[sid])
  }

  // ---------------------------------------------------------------- the invariant

  /** A session shows the result `o` of its Ensure. */
  predicate Shows(r: Rec, o: Outcome) {
    match o
    case Success(ep) => r.err == None && r.endpoint == ep
    case Failure(e) => r.err == Some(e)
  }

  predicate ResolverAgrees(r: Rec, p: Resolver) {
    match p
    case Written(o) => !r.ready && Shows(r, o)
    case Done(o) => r.ready && Shows(r, o)
    case _ => !r.ready && r.err == None
  }

  predicate SidOk(c: Core, id: string, sid: Sid) {
    sid < |c.recs| && c.recs[sid].id == id
  }

  predicate GoodSid(c: Core, id: string, sid: Sid) {
    SidOk(c, id, sid) && c.recs[sid].Good()
  }

  predicate OrigOk(c: Core, id: string, orig: Option<Sid>) {
    orig.Some? ==> GoodSid(c, id, orig.value)
  }

  /** A handler only ever holds sessions of its own id, and Refresh is only given what Get returned. */
  predicate HandlerOk(c: Core, hd: Handler) {
    match hd.pc
    case Entering(orig) => OrigOk(c, hd.id, orig)
    case Waiting(sid, orig) => SidOk(c, hd.id, sid) && OrigOk(c, hd.id, orig)
    case Dropping(sid, orig) => SidOk(c, hd.id, sid) && c.recs[sid].Broken() && OrigOk(c, hd.id, orig)
    case Got(sid) => GoodSid(c, hd.id, sid)
    case Serving(sid, orig) =>
      SidOk(c, hd.id, sid) && OrigOk(c, hd.id, orig) && (orig.None? ==> GoodSid(c, hd.id, sid))
    case Ending(sid) => GoodSid(c, hd.id, sid)
    case Finished => true
    case _ => SidOk(c, hd.id, hd.pc.sid)
  }

  predicate ReaperOk(s: System) {
    match s.reaper
    case Scanning(_, todo, victims) => todo <= s.core.sessions.Keys && forall v <- victims :: v < |s.core.recs|
    case Deleting(victims, calling) => (calling ==> victims != []) && forall v <- victims :: v < |s.core.recs|
    case _ => true
  }

  /** Every session that is still resolving is the map entry under its own id. */
  predicate UnreadyAreFiled(c: Core) {
    forall sid :: 0 <= sid < |c.recs| && !c.recs[sid].ready ==> Filed(c, c.recs[sid].id, sid)
  }

  predicate Shape(s: System) {
    && |s.resolvers| == |s.core.recs|
    && WellFormed(s.core)
    && UnreadyAreFiled(s.core)
    && (forall sid :: 0 <= sid < |s.core.recs| ==> ResolverAgrees(s.core.recs[sid], s.resolvers[sid]))
    && (forall h :: 0 <= h < |s.handlers| ==> HandlerOk(s.core, s.handlers[h]))
    && ReaperOk(s)
    && !(s.reaper.Scanning? && s.recon.Reconciling?)
    && (forall sid :: 0 <= sid < |s.core.recs| ==> s.core.recs[sid].lastActive <= s.now)
    && (s.recon.Reconciling? ==> s.recon.at <= s.now)
  }

  lemma HandlerOkAdvances(c: Core, d: Core, hd: Handler)
    requires RecsAdvance(c, d) && HandlerOk(c, hd)
    ensures HandlerOk(d, hd)
  {
  }

  lemma HandlersOkAdvance(c: Core, d: Core, hs: seq<Handler>)
    requires RecsAdvance(c, d) && forall h :: 0 <= h < |hs| ==> HandlerOk(c, hs[h])
    ensures forall h :: 0 <= h < |hs| ==> HandlerOk(d, hs[h])
  {
    forall h | 0 <= h < |hs| ensures HandlerOk(d, hs[h]) { HandlerOkAdvances(c, d, hs[h]); }
  }

  // ---------------------------------------------------------------- each step keeps it

  lemma SpawnKeepsShape(s: System, id: string, at: int)
    requires Shape(s) && id !in s.core.sessions && at <= s.now && !s.reaper.Scanning?
    ensures Shape(Spawn(s, Create(s.core, id, at)))
    ensures RecsAdvance(s.core, Create(s.core, id, at))
  {
    HandlersOkAdvance(s.core, Create(s.core, id, at), s.handlers);
  }

  /** Only a ready session may leave the map. */
  lemma LoseKeepsShape(s: System, id: string, lr: map<string, int>)
    requires Shape(s) && id in s.core.sessions && s.core.recs[s.core.sessions[id]].ready
    requires s.reaper.Scanning? ==> id !in s.reaper.todo
    ensures Shape(s.(core := s.core.(sessions := s.core.sessions - {id}, lastRefresh := lr)))
  {
    HandlersOkAdvance(s.core, s.core.(sessions := s.core.sessions - {id}, lastRefresh := lr), s.handlers);
  }

  lemma GotoKeepsShape(s: System, h: nat, pc: Pc)
    requires Shape(s) && h < |s.handlers| && HandlerOk(s.core, s.handlers[h].(pc := pc))
    ensures Shape(Goto(s, h, pc))
  {
  }

  lemma TouchKeepsShape(s: System, sid: Sid)
    requires Shape(s) && sid < |s.core.recs|
    ensures Shape(s.(core := Touch(s.core, sid, s.now)))
    ensures RecsAdvance(s.core, Touch(s.core, sid, s.now))
  {
    HandlersOkAdvance(s.core, Touch(s.core, sid, s.now), s.handlers);
  }

  lemma AddConnKeepsShape(s: System, sid: Sid, d: int)
    requires Shape(s) && sid < |s.core.recs|
    ensures Shape(s.(core := AddConn(s.core, sid, d)))
    ensures RecsAdvance(s.core, AddConn(s.core, sid, d))
  {
    HandlersOkAdvance(s.core, AddConn(s.core, sid, d), s.handlers);
  }

  lemma EnterKeepsShape(s: System, h: nat)
    requires Shape(s) && HandlerEnabled(s, Enter(h))
    ensures Shape(DoEnter(s, h))
    ensures RecsAdvance(s.core, DoEnter(s, h).core)
  {
    var id := s.handlers[h].id;
    var (c, sid) := GetEnter(s.core, id, s.now);
    if id !in s.core.sessions { SpawnKeepsShape(s, id, s.now); }
    GotoKeepsShape(Spawn(s, c), h, Waiting(sid, PcOf(s, h).orig));
  }

  lemma DropFailKeepsShape(s: System, h: nat)
    requires Shape(s) && HandlerEnabled(s, DropFail(h))
    ensures Shape(DoDropFail(s, h))
    ensures RecsAdvance(s.core, DoDropFail(s, h).core)
  {
    var sid, id := PcOf(s, h).sid, s.handlers[h].id;
    if Filed(s.core, id, sid) { LoseKeepsShape(s, id, s.core.lastRefresh); }
    GotoKeepsShape(s.(core := DropFailed(s.core, id, sid)), h, AfterFailedGet(PcOf(s, h).orig));
  }

  lemma RefreshKeepsShape(s: System, h: nat)
    requires Shape(s) && HandlerEnabled(s, Refresh(h))
    ensures Shape(DoRefresh(s, h))
    ensures RecsAdvance(s.core, DoRefresh(s, h).core)
  {
    var stale := PcOf(s, h).sid;
    var id := s.core.recs[stale].id;
    if !CoolingDown(s.core, id, s.now) {
      var c := RefreshDrop(s.core, id, stale, s.now);
      if Filed(s.core, id, stale) { LoseKeepsShape(s, id, s.core.lastRefresh[id := s.now]); }
      HandlersOkAdvance(s.core, c, s.handlers);
      GotoKeepsShape(s.(core := c), h, Entering(Some(stale)));
    }
  }

  lemma MarkKeepsShape(s: System, h: nat)
    requires Shape(s) && HandlerEnabled(s, Mark(h))
    ensures Shape(DoMark(s, h))
    ensures RecsAdvance(s.core, DoMark(s, h).core)
  {
    var sid := PcOf(s, h).sid;
    TouchKeepsShape(s, sid);
    GotoKeepsShape(s.(core := Touch(s.core, sid, s.now)), h, PcOf(DoMark(s, h), h));
  }

  lemma EndKeepsShape(s: System, h: nat)
    requires Shape(s) && HandlerEnabled(s, End(h))
    ensures Shape(DoEnd(s, h))
    ensures RecsAdvance(s.core, DoEnd(s, h).core)
  {
    var o := Served(PcOf(s, h));
    TouchKeepsShape(s, o);
    GotoKeepsShape(if s.handlers[h].ws then s else s.(core := Touch(s.core, o, s.now)), h, Finished);
  }

  lemma ConnStepKeepsShape(s: System, step: Step)
    requires Shape(s) && HandlerEnabled(s, step) && (step.Open? || step.Shut?)
    ensures Shape(HandlerAct(s, step))
    ensures RecsAdvance(s.core, HandlerAct(s, step).core)
  {
    var sid := PcOf(s, step.h).sid;
    var d := if step.Open? then 1 else -1;
    AddConnKeepsShape(s, sid, d);
    GotoKeepsShape(s.(core := AddConn(s.core, sid, d)), step.h, PcOf(HandlerAct(s, step), step.h));
  }

  lemma WaiterKeepsShape(s: System, step: Step)
    requires Shape(s) && HandlerEnabled(s, step) && (step.SeeReady? || step.Cancel?)
    ensures Shape(HandlerAct(s, step))
    ensures RecsAdvance(s.core, HandlerAct(s, step).core)
  {
    GotoKeepsShape(s, step.h, PcOf(HandlerAct(s, step), step.h));
  }

  lemma HandlerStepKeepsShape(s: System, step: Step)
    requires Shape(s) && HandlerEnabled(s, step)
    ensures Shape(HandlerAct(s, step))
    ensures RecsAdvance(s.core, HandlerAct(s, step).core)
  {
    match step {
      case Enter(h) => EnterKeepsShape(s, h);
      case SeeReady(h) => WaiterKeepsShape(s, step);
      case Cancel(h) => WaiterKeepsShape(s, step);
      case DropFail(h) => DropFailKeepsShape(s, h);
      case Refresh(h) => RefreshKeepsShape(s, h);
      case Mark(h) => MarkKeepsShape(s, h);
      case End(h) => EndKeepsShape(s, h);
      case _ => ConnStepKeepsShape(s, step);
    }
  }

  lemma PublishKeepsShape(ttl: int, s: System, sid: Sid)
    requires Shape(s) && OtherEnabled(s, Write(sid))
    ensures Shape(OtherAct(ttl, s, Write(sid)))
    ensures RecsAdvance(s.core, OtherAct(ttl, s, Write(sid)).core)
  {
    HandlersOkAdvance(s.core, Publish(s.core, sid, s.resolvers[sid].o), s.handlers);
  }

  lemma CloseKeepsShape(ttl: int, s: System, sid: Sid)
    requires Shape(s) && OtherEnabled(s, CloseChan(sid))
    ensures Shape(OtherAct(ttl, s, CloseChan(sid)))
    ensures RecsAdvance(s.core, OtherAct(ttl, s, CloseChan(sid)).core)
  {
    HandlersOkAdvance(s.core, CloseReady(s.core, sid), s.handlers);
  }

  lemma VisitKeepsShape(s: System, id: string)
    requires Shape(s) && OtherEnabled(s, Visit(id))
    ensures Shape(DoVisit(s, id))
    ensures RecsAdvance(s.core, DoVisit(s, id).core)
  {
    var t := s.(reaper := s.reaper.(todo := s.reaper.todo - {id}));
    if Doomed(s.core, id, s.reaper.cutoff) { LoseKeepsShape(t, id, s.core.lastRefresh - {id}); }
  }

  lemma ReconOneKeepsShape(s: System)
    requires Shape(s) && OtherEnabled(s, ReconOne)
    ensures Shape(DoReconOne(s))
    ensures RecsAdvance(s.core, DoReconOne(s).core)
  {
    var id := s.recon.todo[0];
    if id !in s.core.sessions { SpawnKeepsShape(s, id, s.recon.at); }
  }

  lemma OtherStepKeepsShape(ttl: int, s: System, step: Step)
    requires Shape(s) && OtherEnabled(s, step)
    ensures Shape(OtherAct(ttl, s, step))
    ensures RecsAdvance(s.core, OtherAct(ttl, s, step).core)
  {
    match step {
      case Write(sid) => PublishKeepsShape(ttl, s, sid);
      case CloseChan(sid) => CloseKeepsShape(ttl, s, sid);
      case Visit(id) => VisitKeepsShape(s, id);
      case ReconOne => ReconOneKeepsShape(s);
      case EndDelete => assert forall v <- s.reaper.victims[1..] :: v in s.reaper.victims;
      case _ =>
    }
  }

  lemma StepKeepsShape(ttl: int, s: System, step: Step)
    requires Shape(s) && Enabled(s, step)
    ensures Shape(Apply(ttl, s, step))
    ensures RecsAdvance(s.core, Apply(ttl, s, step).core)
  {
    if HandlerEnabled(s, step) { HandlerStepKeepsShape(s, step); } else { OtherStepKeepsShape(ttl, s, step); }
    assert Shape(Act(ttl, s, step));
  }
}
