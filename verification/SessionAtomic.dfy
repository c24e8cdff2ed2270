/**
 The two sections that keep the lock over several steps, Reconcile's loop and the reaper's scan, do what the
 whole loops of SessionCore do, whatever unlocked steps of other threads fall in between.
 */
module SessionAtomic {
  import opened Common
  import opened SessionCore
  import opened SessionProtocol
  import opened SessionShape
  import opened SessionTheorems

  /** Equal but for what threads without the lock may write to the session objects. */
  predicate SameMaps(c: Core, d: Core) {
    c.sessions == d.sessions && c.lastRefresh == d.lastRefresh && |c.recs| == |d.recs|
  }

  // ---------------------------------------------------------------- reconciliation

  lemma {:induction false} ReconcileAllCongruent(c: Core, d: Core, ids: seq<string>, at: int)
    requires SameMaps(c, d)
    ensures SameMaps(ReconcileAll(c, ids, at), ReconcileAll(d, ids, at))
    decreases |ids|
  {
    if ids != [] {
      ReconcileAllCongruent(ReconcileOne(c, ids[0], at), ReconcileOne(d, ids[0], at), ids[1..], at);
    }
  }

  /** What the maps will be when the reconciler lets go of the lock. */
  function Plan(s: System): Core
    requires s.recon.Reconciling?
  {
    ReconcileAll(s.core, s.recon.todo, s.recon.at)
  }

  lemma OtherThreadsWait(ttl: int, s: System, step: Step)
    requires Shape(s) && Enabled(s, step) && s.recon.Reconciling? && step != ReconOne && step != ReconEnd
    ensures SameMaps(Act(ttl, s, step).core, s.core) && Act(ttl, s, step).recon == s.recon
  {
    if HandlerEnabled(s, step) { HandlerMaps(s, step); } else { OtherMaps(ttl, s, step); }
  }

  lemma StepKeepsPlan(ttl: int, s: System, step: Step)
    requires Shape(s) && Enabled(s, step) && s.recon.Reconciling? && step != ReconEnd
    ensures var t := Act(ttl, s, step);
      t.recon.Reconciling? && t.recon.at == s.recon.at && SameMaps(Plan(t), Plan(s))
  {
    if step != ReconOne {
      OtherThreadsWait(ttl, s, step);
      ReconcileAllCongruent(Act(ttl, s, step).core, s.core, s.recon.todo, s.recon.at);
    }
  }

  lemma {:induction false} RunKeepsPlan(ttl: int, s: System, steps: seq<Step>)
    requires Shape(s) && Run(ttl, s, steps).Some? && s.recon.Reconciling? && ReconEnd !in steps
    ensures var t := Run(ttl, s, steps).value;
      t.recon.Reconciling? && t.recon.at == s.recon.at && SameMaps(Plan(t), Plan(s))
    decreases |steps|
  {
    if steps != [] {
      StepKeepsPlan(ttl, s, steps[0]);
      StepKeepsShape(ttl, s, steps[0]);
      assert steps[0] in steps;
      RunKeepsPlan(ttl, Apply(ttl, s, steps[0]), steps[1..]);
    }
  }

  /** The loop starts with all the listed ids and the maps as they are, and only its end lets go of the lock. */
  lemma ReconcileStarts(ttl: int, s: System, ids: seq<string>)
    requires Enabled(s, ReconBegin(ids))
    ensures Apply(ttl, s, ReconBegin(ids)) == s.(recon := Reconciling(ids, s.now))
  {
    assert Apply(ttl, s, ReconBegin(ids)).hist == s.hist;
  }

  /**
   When the reconciler has come to the end of its list, in any interleaving, every listed id has an entry,
   every entry it found is as it was, and no other was added.
   */
  lemma ReconcileIsAtomic(ttl: int, s: System, steps: seq<Step>, u: System)
    requires Reachable(ttl, s) && s.recon.Reconciling? && ReconEnd !in steps
    requires Run(ttl, s, steps) == Some(u) && u.recon.Reconciling? && u.recon.todo == []
    ensures SameMaps(u.core, ReconcileAll(s.core, s.recon.todo, s.recon.at))
    ensures forall id :: id in u.core.sessions <==> id in s.core.sessions || id in s.recon.todo
    ensures forall id <- s.core.sessions :: u.core.sessions[id] == s.core.sessions[id]
    ensures u.core.lastRefresh == s.core.lastRefresh
  {
    ReachableInv(ttl, s);
    RunKeepsPlan(ttl, s, steps);
    ReconcileAddsExactly(s.core, s.recon.todo, s.recon.at);
  }

  // ---------------------------------------------------------------- the reaper's scan

  /** How far a scan that began at `s` has come at `u`: what it removed are its victims, and nobody added anything. */
  predicate ScanSoFar(s: System, u: System, steps: seq<Step>) {
    && u.reaper.Scanning?
    && (forall id <- u.core.sessions :: id in s.core.sessions && u.core.sessions[id] == s.core.sessions[id])
    && (forall id <- s.core.sessions :: id in u.core.sessions || s.core.sessions[id] in u.reaper.victims)
    && (forall v <- u.reaper.victims :: v < |s.core.recs| && Filed(s.core, s.core.recs[v].id, v)
                                         && s.core.recs[v].id !in u.core.sessions)
    && (forall id <- s.core.sessions :: id in u.reaper.todo || Visit(id) in steps)
  }

  lemma OthersWaitForScan(ttl: int, s: System, step: Step)
    requires Shape(s) && Enabled(s, step) && s.reaper.Scanning? && step != Unlock && !step.Visit?
    ensures SameMaps(Act(ttl, s, step).core, s.core) && Act(ttl, s, step).reaper == s.reaper
  {
    if HandlerEnabled(s, step) { HandlerMaps(s, step); } else { OtherMaps(ttl, s, step); }
  }

  lemma ActKeepsScan(ttl: int, s: System, u: System, done: seq<Step>, step: Step)
    requires WellFormed(s.core) && Shape(u) && Enabled(u, step) && ScanSoFar(s, u, done) && step != Unlock
    ensures ScanSoFar(s, Act(ttl, u, step), done + [step])
  {
    if !step.Visit? { OthersWaitForScan(ttl, u, step); }
  }

  lemma StepKeepsScan(ttl: int, s: System, u: System, done: seq<Step>, step: Step)
    requires WellFormed(s.core) && Shape(u) && Enabled(u, step) && ScanSoFar(s, u, done) && step != Unlock
    ensures ScanSoFar(s, Apply(ttl, u, step), done + [step]) && Shape(Apply(ttl, u, step))
  {
    ActKeepsScan(ttl, s, u, done, step);
    StepKeepsShape(ttl, u, step);
  }

  lemma {:induction false} RunKeepsScan(ttl: int, s: System, u: System, done: seq<Step>, steps: seq<Step>)
    requires WellFormed(s.core) && Shape(u) && ScanSoFar(s, u, done)
    requires Run(ttl, u, steps).Some? && Unlock !in steps
    ensures ScanSoFar(s, Run(ttl, u, steps).value, done + steps)
    decreases |steps|
  {
    if steps == [] {
      assert done + steps == done;
    } else {
      assert steps[0] in steps;
      StepKeepsScan(ttl, s, u, done, steps[0]);
      RunKeepsScan(ttl, s, Apply(ttl, u, steps[0]), done + [steps[0]], steps[1..]);
      assert done + [steps[0]] + steps[1..] == done + steps;
    }
  }

  /**
   When a scan that began with every entry still to visit has nothing left, in any interleaving, it has
   visited every entry; what it took out of the map are exactly its victims, and every other entry is as it was.
   */
  lemma ScanIsAtomic(ttl: int, s: System, steps: seq<Step>, u: System)
    requires Reachable(ttl, s) && s.reaper.Scanning? && s.reaper.todo == s.core.sessions.Keys && s.reaper.victims == []
    requires Run(ttl, s, steps) == Some(u) && Unlock !in steps && u.reaper.Scanning? && u.reaper.todo == {}
    ensures forall id <- s.core.sessions :: Visit(id) in steps
    ensures forall id <- s.core.sessions ::
      (id in u.core.sessions ==> u.core.sessions[id] == s.core.sessions[id])
      && (id !in u.core.sessions <==> s.core.sessions[id] in u.reaper.victims)
    ensures forall id <- u.core.sessions :: id in s.core.sessions
  {
    ReachableInv(ttl, s);
    RunKeepsScan(ttl, s, s, [], steps);
    assert [] + steps == steps;
    ScanEnds(s, u, steps);
  }

  lemma ScanEnds(s: System, u: System, steps: seq<Step>)
    requires WellFormed(s.core) && ScanSoFar(s, u, steps) && u.reaper.todo == {}
    ensures forall id <- s.core.sessions :: Visit(id) in steps
    ensures forall id <- s.core.sessions ::
      (id in u.core.sessions ==> u.core.sessions[id] == s.core.sessions[id])
      && (id !in u.core.sessions <==> s.core.sessions[id] in u.reaper.victims)
  {
  }

  function Visits(order: seq<string>): seq<Step> {
    seq(|order|, k requires 0 <= k < |order| => Visit(order[k]))
  }

  lemma {:induction false} VisitsRun(ttl: int, s: System, order: seq<string>)
    requires Shape(s) && s.reaper.Scanning? && forall id :: id in order <==> id in s.reaper.todo
    requires forall i, j :: 0 <= i < j < |order| ==> order[i] != order[j]
    ensures var t := Run(ttl, s, Visits(order));
      t.Some? && t.value.core == ReapVisits(s.core, order, s.reaper.cutoff) && Enabled(t.value, Unlock)
    decreases |order|
  {
    if order == [] {
      assert s.reaper.todo == {};
      assert Visits(order) == [];
    } else {
      var step := Visit(order[0]);
      assert Visits(order)[0] == step && Visits(order)[1..] == Visits(order[1..]);
      StepKeepsShape(ttl, s, step);
      VisitsRun(ttl, Apply(ttl, s, step), order[1..]);
    }
  }

  /** Without unlocked steps in between, and in any order, the scan leaves what the order-free sweep leaves. */
  lemma ScanIsSweep(ttl: int, s: System, order: seq<string>)
    requires Reachable(ttl, s) && Enabled(s, Lock)
    requires forall i, j :: 0 <= i < j < |order| ==> order[i] != order[j]
    requires forall id :: id in order <==> id in s.core.sessions
    ensures var t := Run(ttl, Apply(ttl, s, Lock), Visits(order));
      t.Some? && t.value.core == Swept(s.core, s.reaper.cutoff) && Enabled(t.value, Unlock)
  {
    ReachableInv(ttl, s);
    StepKeepsShape(ttl, s, Lock);
    VisitsRun(ttl, Apply(ttl, s, Lock), order);
    ScanOrderIrrelevant(s.core, s.reaper.cutoff, order);
  }
}
