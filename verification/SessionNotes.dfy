/**
 What the refresh times remember. Each Refresh past the cooldown test notes its time, whether it drops a
 session or not, and only a reap of the id erases the note; so the cooldown test, in every reachable state,
 says exactly whether there is such a Refresh less than one cooldown ago with no reap of the id since.
 */
module SessionNotes {
  import opened Common
  import opened SessionCore
  import opened SessionProtocol
  import opened SessionShape
  import opened SessionLedger
  import opened SessionEvents
  import opened SessionTheorems
  import opened SessionRuns

  predicate IsNote(e: Event, id: string) {
    e.Noted? && e.id == id
  }

  // ---------------------------------------------------------------- the last note in a history

  function NoteAfter(note: Option<int>, e: Event, id: string): Option<int> {
    if IsNote(e, id) then Some(e.at) else if IsDrop(e, id, Reaped) then None else note
  }

  /** The time of the last note of `id` since its last reap. */
  function LastNote(h: seq<Event>, id: string): Option<int>
    decreases |h|
  {
    if h == [] then None else NoteAfter(LastNote(h[..|h| - 1], id), h[|h| - 1], id)
  }

  function NoteOver(note: Option<int>, es: seq<Event>, id: string): Option<int> {
    if es == [] then note else NoteAfter(note, es[0], id)
  }

  lemma LastNoteAppend(h: seq<Event>, es: seq<Event>, id: string)
    requires |es| <= 1
    ensures LastNote(h + es, id) == NoteOver(LastNote(h, id), es, id)
  {
    var g := h + es;
    if es == [] {
      assert g == h;
    } else {
      assert g[..|g| - 1] == h && g[|g| - 1] == es[0];
    }
  }

  function RefreshTime(c: Core, id: string): Option<int> {
    if id in c.lastRefresh then Some(c.lastRefresh[id]) else None
  }

  ghost predicate Remembers(s: System) {
    forall id :: RefreshTime(s.core, id) == LastNote(s.hist, id)
  }

  /** What one step does to the refresh time of an id shows in its events. */
  lemma StepNotes(ttl: int, s: System, step: Step, id: string)
    requires Shape(s) && Enabled(s, step)
    ensures RefreshTime(Act(ttl, s, step).core, id)
         == NoteOver(NoteOver(RefreshTime(s.core, id), ChangeEvents(s, ChangeOf(s, step)), id), CallEvents(s, step), id)
  {
    if HandlerEnabled(s, step) { HandlerNotes(s, step, id); } else { OtherNotes(ttl, s, step, id); }
  }

  lemma HandlerNotes(s: System, step: Step, id: string)
    requires Shape(s) && HandlerEnabled(s, step)
    ensures RefreshTime(HandlerAct(s, step).core, id)
         == NoteOver(NoteOver(RefreshTime(s.core, id), ChangeEvents(s, ChangeOf(s, step)), id), CallEvents(s, step), id)
  {
  }

  lemma OtherNotes(ttl: int, s: System, step: Step, id: string)
    requires Shape(s) && OtherEnabled(s, step)
    ensures RefreshTime(OtherAct(ttl, s, step).core, id)
         == NoteOver(NoteOver(RefreshTime(s.core, id), ChangeEvents(s, ChangeOf(s, step)), id), CallEvents(s, step), id)
  {
  }

  lemma StepKeepsRemembers(ttl: int, s: System, step: Step)
    requires Shape(s) && Enabled(s, step) && Remembers(s)
    ensures Remembers(Apply(ttl, s, step))
  {
    forall id ensures RefreshTime(Apply(ttl, s, step).core, id) == LastNote(Apply(ttl, s, step).hist, id) {
      StepNotes(ttl, s, step, id);
      OneCallEvent(s, step);
      LastNoteAppendTwo(s.hist, ChangeEvents(s, ChangeOf(s, step)), CallEvents(s, step), id);
    }
  }

  lemma LastNoteAppendTwo(h: seq<Event>, es: seq<Event>, fs: seq<Event>, id: string)
    requires |es| <= 1 && |fs| <= 1
    ensures LastNote(h + (es + fs), id) == NoteOver(NoteOver(LastNote(h, id), es, id), fs, id)
  {
    var g := h + es;
    assert h + (es + fs) == g + fs;
    LastNoteAppend(g, fs, id);
    LastNoteAppend(h, es, id);
  }

  // ---------------------------------------------------------------- notes are spaced

  predicate ReapedBetween(h: seq<Event>, i: nat, j: nat, id: string) {
    exists k :: i < k < j && k < |h| && IsDrop(h[k], id, Reaped)
  }

  /** A note, or a drop by Refresh: both happen only past the cooldown test. */
  predicate IsPast(e: Event, id: string) {
    IsNote(e, id) || IsDrop(e, id, Refreshed)
  }

  /** After a note less than one cooldown ago, and no reap since, no Refresh of the id gets past the test. */
  ghost predicate NotesSpaced(h: seq<Event>) {
    forall i: nat, j: nat, id ::
      i < j < |h| && IsNote(h[i], id) && IsPast(h[j], id) && !ReapedBetween(h, i, j, id) ==>
        REFRESH_COOLDOWN <= h[j].at - h[i].at
  }

  /** A note that no reap has erased is still there, or a later one is. */
  lemma {:induction false} NoteStays(h: seq<Event>, i: nat, id: string)
    requires i < |h| && IsNote(h[i], id) && !ReapedBetween(h, i, |h|, id)
    requires forall k, l :: 0 <= k < l < |h| && IsNote(h[k], id) && IsNote(h[l], id) ==> h[k].at <= h[l].at
    ensures LastNote(h, id).Some? && h[i].at <= LastNote(h, id).value
    decreases |h|
  {
    var front, n := h[..|h| - 1], |h| - 1;
    if i < n {
      assert !IsDrop(h[n], id, Reaped);
      assert forall k :: 0 <= k < |front| ==> front[k] == h[k];
      if !IsNote(h[n], id) {
        assert !ReapedBetween(front, i, |front|, id);
        NoteStays(front, i, id);
      }
    }
  }

  ghost predicate NotesInOrder(h: seq<Event>) {
    forall k, l, id :: 0 <= k < l < |h| && IsNote(h[k], id) && IsNote(h[l], id) ==> h[k].at <= h[l].at
  }

  ghost predicate NotesOk(s: System) {
    Remembers(s) && NotesInOrder(s.hist) && NotesSpaced(s.hist)
  }

  /** Where the events of a step stand in the new history, and what lets a note or a Refresh drop in. */
  lemma NewPast(ttl: int, s: System, step: Step, j: nat, id: string)
    requires Shape(s) && Enabled(s, step)
    requires |s.hist| <= j < |Apply(ttl, s, step).hist| && IsPast(Apply(ttl, s, step).hist[j], id)
    ensures Apply(ttl, s, step).hist[j].at == s.now && !CoolingDown(s.core, id, s.now)
    ensures forall k :: |s.hist| <= k < j ==> !IsNote(Apply(ttl, s, step).hist[k], id)
    ensures forall k :: |s.hist| <= k < |Apply(ttl, s, step).hist| ==> !IsDrop(Apply(ttl, s, step).hist[k], id, Reaped)
  {
    var ch, call := ChangeEvents(s, ChangeOf(s, step)), CallEvents(s, step);
    OneCallEvent(s, step);
    NoDropCalls(s, step);
    var h := s.hist + (ch + call);
    assert h[j] in ch || h[j] in call;
    PastIsRefresh(s, step, h[j], id);
    assert forall k :: |s.hist| <= k < |h| ==> h[k] == (ch + call)[k - |s.hist|];
  }

  lemma PastIsRefresh(s: System, step: Step, e: Event, id: string)
    requires Shape(s) && Enabled(s, step) && IsPast(e, id)
    requires e in ChangeEvents(s, ChangeOf(s, step)) || e in CallEvents(s, step)
    ensures step.Refresh? && e.at == s.now && !CoolingDown(s.core, id, s.now)
    ensures forall x <- ChangeEvents(s, ChangeOf(s, step)) :: x.Dropped? && x.why == Refreshed
  {
  }

  lemma StepKeepsSpacedNotes(ttl: int, s: System, step: Step)
    requires Inv(ttl, s) && Enabled(s, step) && NotesOk(s)
    ensures NotesSpaced(Apply(ttl, s, step).hist)
  {
    var h := Apply(ttl, s, step).hist;
    forall i: nat, j: nat, id | i < j < |h| && IsNote(h[i], id) && IsPast(h[j], id) && !ReapedBetween(h, i, j, id)
      ensures REFRESH_COOLDOWN <= h[j].at - h[i].at
    {
      assert forall k :: 0 <= k < |s.hist| ==> h[k] == s.hist[k];
      if j < |s.hist| {
        assert !ReapedBetween(s.hist, i, j, id);
      } else {
        NewPast(ttl, s, step, j, id);
        assert !ReapedBetween(s.hist, i, |s.hist|, id);
        NotedLongAgo(s, i, id);
      }
    }
  }

  /** A note that is not erased is at least one cooldown old whenever the id is not cooling down. */
  lemma NotedLongAgo(s: System, i: nat, id: string)
    requires Remembers(s) && NotesInOrder(s.hist) && !CoolingDown(s.core, id, s.now)
    requires i < |s.hist| && IsNote(s.hist[i], id) && !ReapedBetween(s.hist, i, |s.hist|, id)
    ensures REFRESH_COOLDOWN <= s.now - s.hist[i].at
  {
    NoteStays(s.hist, i, id);
    assert RefreshTime(s.core, id) == LastNote(s.hist, id);
  }

  lemma StepKeepsNotesInOrder(ttl: int, s: System, step: Step)
    requires Inv(ttl, s) && Enabled(s, step) && NotesInOrder(s.hist)
    ensures NotesInOrder(Apply(ttl, s, step).hist)
  {
    var h := Apply(ttl, s, step).hist;
    forall k, l, id | 0 <= k < l < |h| && IsNote(h[k], id) && IsNote(h[l], id) ensures h[k].at <= h[l].at {
      if l >= |s.hist| {
        NewPast(ttl, s, step, l, id);
        if k < |s.hist| { assert EventOk(ttl, s, s.hist[k]); }
      }
    }
  }

  lemma {:induction false} RunKeepsNotes(ttl: int, s: System, steps: seq<Step>)
    requires Inv(ttl, s) && NotesOk(s) && Run(ttl, s, steps).Some?
    ensures NotesOk(Run(ttl, s, steps).value)
    decreases |steps|
  {
    if steps != [] {
      StepKeepsInv(ttl, s, steps[0]);
      StepKeepsRemembers(ttl, s, steps[0]);
      StepKeepsNotesInOrder(ttl, s, steps[0]);
      StepKeepsSpacedNotes(ttl, s, steps[0]);
      RunKeepsNotes(ttl, Apply(ttl, s, steps[0]), steps[1..]);
    }
  }

  lemma ReachableNotes(ttl: int, t: System)
    requires Reachable(ttl, t)
    ensures NotesOk(t)
  {
    InitialInv(ttl);
    var steps :| Run(ttl, INITIAL, steps) == Some(t);
    RunKeepsNotes(ttl, INITIAL, steps);
  }

  // ---------------------------------------------------------------- what the cooldown means

  /**
   In every reachable state the refresh time of an id is that of its last Refresh past the test, if it was
   not reaped since, and the id is cooling down exactly if that was less than two seconds ago.
   */
  lemma CooldownIsRemembered(ttl: int, t: System, id: string)
    requires Reachable(ttl, t)
    ensures RefreshTime(t.core, id) == LastNote(t.hist, id)
    ensures CoolingDown(t.core, id, t.now)
       <==> LastNote(t.hist, id).Some? && t.now - LastNote(t.hist, id).value < 2_000_000_000
  {
    ReachableNotes(ttl, t);
    assert RefreshTime(t.core, id) == LastNote(t.hist, id);
  }

  lemma RefreshActs(ttl: int, s: System, h: nat)
    requires Shape(s) && Enabled(s, Refresh(h))
    ensures var id := s.handlers[h].id; var stale := PcOf(s, h).sid; var t := Apply(ttl, s, Refresh(h));
      if CoolingDown(s.core, id, s.now) then t.core == s.core && t.hist == s.hist
      else
        && t.core.lastRefresh == s.core.lastRefresh[id := s.now]
        && t.core.sessions == if id in s.core.sessions && s.core.sessions[id] == stale then s.core.sessions - {id}
                              else s.core.sessions
  {
    assert HandlerOk(s.core, s.handlers[h]);
  }

  /**
   A Refresh that gets past the test notes its time, also if the stale session is not the entry any more, and
   then no entry goes; one that does not get past it changes nothing.
   */
  lemma RefreshNotes(ttl: int, s: System, h: nat)
    requires Reachable(ttl, s) && Enabled(s, Refresh(h))
    ensures var id := s.handlers[h].id; var stale := PcOf(s, h).sid; var t := Apply(ttl, s, Refresh(h));
      var last := LastNote(s.hist, id);
      if last.Some? && s.now - last.value < 2_000_000_000 then t.core == s.core && t.hist == s.hist
      else
        && t.core.lastRefresh == s.core.lastRefresh[id := s.now]
        && t.core.sessions == (if id in s.core.sessions && s.core.sessions[id] == stale then s.core.sessions - {id}
                               else s.core.sessions)
        && LastNote(t.hist, id) == Some(s.now)
  {
    CooldownIsRemembered(ttl, s, s.handlers[h].id);
    ReachableInv(ttl, s);
    RefreshActs(ttl, s, h);
    ReachStep(ttl, s, Refresh(h));
    CooldownIsRemembered(ttl, Apply(ttl, s, Refresh(h)), s.handlers[h].id);
  }

  /**
   After a Refresh has got past the test, dropping or not, no Refresh of the id drops a session, or gets past
   the test again, within two seconds, unless the id was reaped in between.
   */
  lemma NotesAreSpaced(ttl: int, t: System, i: nat, j: nat, id: string)
    requires Reachable(ttl, t) && i < j < |t.hist| && IsNote(t.hist[i], id) && IsPast(t.hist[j], id)
    ensures t.hist[j].at - t.hist[i].at >= 2_000_000_000 || exists k :: i < k < j && IsDrop(t.hist[k], id, Reaped)
  {
    ReachableNotes(ttl, t);
    if !ReapedBetween(t.hist, i, j, id) {
      assert REFRESH_COOLDOWN <= t.hist[j].at - t.hist[i].at;
    }
  }

  /**
   The reap does matter, under every idle TTL: a Refresh that found its stale session replaced notes its time;
   the idle replacement is reaped, and with it the note; and the next session is dropped at the same instant.
   */
  lemma NoteLostByReap(ttl: int) returns (t: System, i: nat, j: nat)
    ensures Reachable(ttl, t) && i < j < |t.hist| && IsNote(t.hist[i], "a") && IsDrop(t.hist[j], "a", Refreshed)
    ensures t.hist[j].at == t.hist[i].at
    ensures i > 0 && !IsDrop(t.hist[i - 1], "a", Refreshed)
  {
    var id, d := "a", if ttl > REFRESH_COOLDOWN then ttl else REFRESH_COOLDOWN;
    var s1 := ReplacedReached(ttl, id);
    var s2 := TickReached(ttl, s1, d);
    var s3 := LateReached(ttl, s2, 1, 0, id);
    i := |s1.hist|;
    t, j := DropAfterReap(ttl, s3, id);
    assert t.hist[i] == s3.hist[i] && t.hist[i - 1] == s1.hist[i - 1];
  }

  /** The idle session 1 is reaped, and the one that takes its place is dropped by Refresh at once. */
  lemma DropAfterReap(ttl: int, s: System, id: string) returns (t: System, j: nat)
    requires Reachable(ttl, s) && s.reaper.Sleeping? && s.recon.Off?
    requires |s.core.recs| == 2 && |s.resolvers| == 2 && Reapable(s.core.recs[1], s.now - ttl)
    requires s.core.sessions == map[id := 1] && |s.handlers| == 2
    ensures Reachable(ttl, t) && s.hist <= t.hist && |s.hist| <= j < |t.hist|
    ensures IsDrop(t.hist[j], id, Refreshed) && t.hist[j].at == s.now
  {
    var s1 := ReapReached(ttl, s, id, 1, 0);
    var s2 := ServeReached(ttl, s1, id);
    t := RefreshReached(ttl, s2, 2, 2, id);
    j := |s2.hist|;
  }

  /** Two handlers hold session 0, one of which has replaced it by session 1, which is good, all at time zero. */
  lemma ReplacedReached(ttl: int, id: string) returns (t: System)
    ensures Reachable(ttl, t) && t.now == 0 && t.reaper.Sleeping? && t.recon.Off?
    ensures |t.core.recs| == 2 && |t.resolvers| == 2 && t.core.recs[0].id == id
    ensures t.core.recs[1].Good() && t.core.recs[1].conns == 0 && t.core.recs[1].lastActive == 0
    ensures t.core.sessions == map[id := 1] && t.core.lastRefresh == map[id := 0]
    ensures |t.handlers| == 2 && t.handlers[1] == Handler(id, false, Serving(0, None))
    ensures |t.hist| > 0 && t.hist[|t.hist| - 1] == Closed(1)
  {
    InitialReachable(ttl);
    var s1 := ServeReached(ttl, INITIAL, id);
    var s2 := JoinReached(ttl, s1, id, 0);
    var s3 := RefreshReached(ttl, s2, 0, 0, id);
    var s4 := EnterReached(ttl, s3, 0, Some(0));
    t := ResolveReached(ttl, s4, 1, Success(ZERO_ENDPOINT));
  }
}
