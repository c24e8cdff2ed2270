/**
 How far apart the drops of one id are. Refresh drops keep one cooldown apart exactly when the idle TTL
 is no shorter than it, because the reaper erases the cooldown entry. What this means for the Ensure
 calls that Refresh causes is in SessionRefresh.
 */
module SessionCooldown {
  import opened Common
  import opened SessionCore
  import opened SessionProtocol
  import opened SessionEvents
  import opened SessionTheorems
  import opened SessionRuns

  /**
   Any two Refresh drops of one id are at least min(cooldown, idle TTL) apart, and any two reaps at least
   one idle TTL.
   */
  lemma DropsAreSpaced(ttl: int, t: System, i: nat, j: nat, id: string)
    requires Reachable(ttl, t) && i < j < |t.hist|
    ensures IsDrop(t.hist[i], id, Refreshed) && IsDrop(t.hist[j], id, Refreshed) ==>
      Min(REFRESH_COOLDOWN, ttl) <= t.hist[j].at - t.hist[i].at
    ensures IsDrop(t.hist[i], id, Reaped) && IsDrop(t.hist[j], id, Reaped) ==> ttl <= t.hist[j].at - t.hist[i].at
  {
    ReachableInv(ttl, t);
  }

  /** The number of drops of `id` for the reason `why` at times from `a` to `b`. */
  function DropsWithin(h: seq<Event>, id: string, why: Why, a: int, b: int): nat
    decreases |h|
  {
    if h == [] then 0
    else
      var e := h[|h| - 1];
      DropsWithin(h[..|h| - 1], id, why, a, b) + Bit(IsDrop(e, id, why) && a <= e.at <= b)
  }

  lemma OneMore(n: int, gap: int)
    ensures (n - 1) * gap + gap == n * gap
  {
  }

  lemma ScaledDown(n: nat, m: nat, g: int, d: nat)
    requires n <= m && m * g <= d
    ensures n * g <= d
  {
    if g >= 0 {
      assert n * g <= m * g;
    } else {
      assert n * g <= 0;
    }
  }

  lemma {:induction false} LastDropIsLate(h: seq<Event>, why: Why, gap: int, id: string, a: int, b: int)
    returns (l: nat)
    requires Spaced(h, why, gap) && DropsWithin(h, id, why, a, b) > 0
    ensures l < |h| && IsDrop(h[l], id, why) && a <= h[l].at <= b
    ensures (DropsWithin(h, id, why, a, b) - 1) * gap <= h[l].at - a
    decreases |h|
  {
    var front, e := h[..|h| - 1], h[|h| - 1];
    var n := DropsWithin(front, id, why, a, b);
    if IsDrop(e, id, why) && a <= e.at <= b {
      l := |h| - 1;
      if n > 0 {
        var k := LastDropIsLate(front, why, gap, id, a, b);
        assert h[k] == front[k] && gap <= e.at - h[k].at;
        OneMore(n, gap);
      }
    } else {
      l := LastDropIsLate(front, why, gap, id, a, b);
    }
  }

  /**
   A window of length b - a holds at most 1 + (b - a) / min(cooldown, idle TTL) Refresh drops of one id and
   at most 1 + (b - a) / (idle TTL) reaps: with more than n of them it is at least n such gaps long.
   */
  lemma DropsAreBounded(ttl: int, t: System, id: string, why: Why, a: int, b: int, n: nat)
    requires Reachable(ttl, t) && why != FailedEnsure && a <= b && n < DropsWithin(t.hist, id, why, a, b)
    ensures n * Gap(ttl, why) <= b - a
  {
    ReachableInv(ttl, t);
    var l := LastDropIsLate(t.hist, why, Gap(ttl, why), id, a, b);
    ScaledDown(n, DropsWithin(t.hist, id, why, a, b) - 1, Gap(ttl, why), b - a);
  }

  // ---------------------------------------------------------------- exactly when drops keep the cooldown

  /** No session of one id is dropped by Refresh less than one cooldown after another. */
  ghost predicate DropsKeepCooldown(ttl: int) {
    forall t :: Reachable(ttl, t) ==> Spaced(t.hist, Refreshed, REFRESH_COOLDOWN)
  }

  /** A run that breaks it: the reaper takes the refreshed session, and with it the cooldown entry. */
  lemma EarlySecondDrop(ttl: int) returns (t: System, i: nat, j: nat)
    requires ttl < REFRESH_COOLDOWN
    ensures Reachable(ttl, t) && i < j < |t.hist|
    ensures IsDrop(t.hist[i], "a", Refreshed) && IsDrop(t.hist[j], "a", Refreshed)
    ensures t.hist[j].at - t.hist[i].at < REFRESH_COOLDOWN
  {
    var id, d := "a", if ttl > 0 then ttl else 0;
    InitialReachable(ttl);
    var s1 := ServeReached(ttl, INITIAL, id);
    var s2 := RefreshReached(ttl, s1, 0, 0, id);
    i := |s1.hist|;
    var s3 := EnterReached(ttl, s2, 0, Some(0));
    var s4 := ResolveReached(ttl, s3, 1, Success(ZERO_ENDPOINT));
    var s5 := ReapReached(ttl, s4, id, 1, d);
    var s6 := ServeReached(ttl, s5, id);
    t := RefreshReached(ttl, s6, 1, 2, id);
    j := |s6.hist|;
    assert s2.hist[i] == Dropped(0, id, Refreshed, 0);
    assert s2.hist <= s3.hist <= s4.hist <= s5.hist <= s6.hist;
  }

  /** Refresh drops keep one cooldown apart over every run if and only if the idle TTL is at least the cooldown. */
  lemma DropsKeepCooldownExactly(ttl: int)
    ensures DropsKeepCooldown(ttl) <==> ttl >= REFRESH_COOLDOWN
  {
    if ttl >= REFRESH_COOLDOWN {
      forall t | Reachable(ttl, t) ensures Spaced(t.hist, Refreshed, REFRESH_COOLDOWN) { ReachableInv(ttl, t); }
    } else {
      var t, i, j := EarlySecondDrop(ttl);
      assert !Spaced(t.hist, Refreshed, REFRESH_COOLDOWN);
    }
  }

  // ---------------------------------------------------------------- what is not promised

  /** The reaper's Delete of an id can be in flight together with an Ensure of the same id. */
  lemma DeleteCanOverlapEnsure(ttl: int) returns (t: System)
    ensures Reachable(ttl, t)
    ensures t.reaper == Deleting([0], true) && |t.core.recs| == 2
    ensures InFlight(t, 1) && t.core.recs[1].id == t.core.recs[0].id
  {
    var id, d := "a", if ttl > 0 then ttl else 0;
    InitialReachable(ttl);
    var s1 := ServeReached(ttl, INITIAL, id);
    var s2 := ReapReached(ttl, s1, id, 0, d);
    var s3 := DeletingReached(ttl, s2, 0);
    var s4 := ArriveReached(ttl, s3, id);
    var s5 := EnterReached(ttl, s4, 1, None);
    t := CallReached(ttl, s5, 1);
  }

  /** The cooldown branch of Refresh can hand a handler a session whose Ensure has not even been called. */
  lemma CooldownCanReturnUnready(ttl: int) returns (t: System)
    ensures Reachable(ttl, t)
    ensures |t.handlers| == 2 && t.handlers[1].pc == Serving(1, Some(0))
    ensures |t.core.recs| == 2 && !t.core.recs[1].ready && |t.resolvers| == 2 && t.resolvers[1].Spawned?
  {
    var id := "a";
    InitialReachable(ttl);
    var s1 := ServeReached(ttl, INITIAL, id);
    var s2 := JoinReached(ttl, s1, id, 0);
    var s3 := RefreshReached(ttl, s2, 0, 0, id);
    var s4 := EnterReached(ttl, s3, 0, Some(0));
    t := CoolReached(ttl, s4, 1, 0, 1, id);
  }
}
