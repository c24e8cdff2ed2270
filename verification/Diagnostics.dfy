/**
 The timed diagnostic claims of internal/identify/identify.go as a protocol: any number of threads
 claim and release, and every successful claim arms a timer that fires no earlier than its expiry.

 A claim reads the clock before it takes the lock and arms its timer after it has let go of it, so a
 claim has its own reading `t`, no later than the moment `now` at which it gets the lock.
 */
module Diagnostics {
  import opened Common

  /** 10 minutes. */
  const DIAGNOSTIC_TTL := 600_000_000_000

  type Entries = map<string, int>

  /** The locked section of claimDiagnostic: whether the claim succeeds, and the entries after it. */
  predicate Claimable(m: Entries, ip: string, t: int) {
    !(ip in m && m[ip] > t)
  }

  function Claim(m: Entries, ip: string, t: int): Entries {
    if Claimable(m, ip, t) then m[ip := t + DIAGNOSTIC_TTL] else m
  }

  function Release(m: Entries, ip: string): Entries {
    m - {ip}
  }

  /** The timer's function: it only removes the entry it was armed for. */
  function Fire(m: Entries, ip: string, expiry: int): Entries {
    if ip in m && m[ip] == expiry then m - {ip} else m
  }

  datatype Arming = Arming(ip: string, expiry: int)

  datatype Timer = Timer(ip: string, expiry: int, due: int)

  datatype Event = Claimed(ip: string, t: int, at: int) | Released(ip: string)

  datatype State = State(now: int, entries: Entries, arming: multiset<Arming>, timers: multiset<Timer>,
                         hist: seq<Event>)

  const INITIAL := State(0, map[], multiset{}, multiset{}, [])

  datatype Step =
    | Tick(d: nat)
    | TryClaim(ip: string, t: int)
    | Arm(a: Arming)
    | Expire(timer: Timer)
    | Free(ip: string)

  predicate Enabled(s: State, step: Step) {
    match step
    case Tick(_) => true
    case TryClaim(_, t) => t <= s.now
    case Arm(a) => a in s.arming
    case Expire(timer) => timer in s.timers && timer.due <= s.now
    case Free(_) => true
  }

  function Apply(s: State, step: Step): State
    requires Enabled(s, step)
  {
    match step
    case Tick(d) => s.(now := s.now + d)
    case TryClaim(ip, t) =>
      if Claimable(s.entries, ip, t) then
        s.(entries := Claim(s.entries, ip, t), arming := s.arming + multiset{Arming(ip, t + DIAGNOSTIC_TTL)},
           hist := s.hist + [Claimed(ip, t, s.now)])
      else s
    case Arm(a) =>
      s.(arming := s.arming - multiset{a}, timers := s.timers + multiset{Timer(a.ip, a.expiry, s.now + DIAGNOSTIC_TTL)})
    case Expire(timer) =>
      s.(entries := Fire(s.entries, timer.ip, timer.expiry), timers := s.timers - multiset{timer})
    case Free(ip) => s.(entries := Release(s.entries, ip), hist := s.hist + [Released(ip)])
  }

  function Run(s: State, steps: seq<Step>): Option<State>
    decreases |steps|
  {
    if steps == [] then Some(s)
    else if Enabled(s, steps[0]) then Run(Apply(s, steps[0]), steps[1..])
    else None
  }

  ghost predicate Reachable(t: State) {
    exists steps :: Run(INITIAL, steps) == Some(t)
  }

  // ---------------------------------------------------------------- the invariant

  /** Some timer that is armed, or about to be, was made for exactly this entry. */
  ghost predicate Covered(s: State, ip: string, expiry: int) {
    Arming(ip, expiry) in s.arming || exists due :: Timer(ip, expiry, due) in s.timers
  }

  /** A claim that was not released since either still stands or its time is over. */
  predicate Standing(s: State, i: nat)
    requires i < |s.hist|
  {
    var e := s.hist[i];
    e.Claimed? && Released(e.ip) !in s.hist[i..] ==>
      (e.ip in s.entries && s.entries[e.ip] >= e.t + DIAGNOSTIC_TTL) || s.now >= e.t + DIAGNOSTIC_TTL
  }

  /** Two claims of one address without a release in between. */
  predicate ClaimPair(h: seq<Event>, i: nat, j: nat) {
    && i < j < |h| && h[i].Claimed? && h[j].Claimed? && h[i].ip == h[j].ip
    && Released(h[i].ip) !in h[i..j]
  }

  ghost predicate Inv(s: State) {
    && (forall ip <- s.entries :: Covered(s, ip, s.entries[ip]))
    && (forall a <- s.arming :: a.expiry <= s.now + DIAGNOSTIC_TTL)
    && (forall timer <- s.timers :: timer.expiry <= timer.due <= s.now + DIAGNOSTIC_TTL)
    && (forall i :: 0 <= i < |s.hist| ==> Standing(s, i))
    && (forall i: nat, j: nat :: ClaimPair(s.hist, i, j) ==> s.hist[j].at >= s.hist[i].t + DIAGNOSTIC_TTL)
  }

  lemma PendingStays(s: State, step: Step, ip: string, x: int)
    requires Enabled(s, step) && Covered(s, ip, x)
    ensures Covered(Apply(s, step), ip, x) || (step.Expire? && step.timer.ip == ip && step.timer.expiry == x)
  {
    var t := Apply(s, step);
    if Arming(ip, x) in s.arming {
      if step == Arm(Arming(ip, x)) {
        assert Timer(ip, x, s.now + DIAGNOSTIC_TTL) in t.timers;
      } else {
        assert Arming(ip, x) in t.arming;
      }
    } else {
      var due :| Timer(ip, x, due) in s.timers;
      assert step == Expire(Timer(ip, x, due)) || Timer(ip, x, due) in t.timers;
    }
  }

  lemma StepKeepsCovered(s: State, step: Step, ip: string)
    requires Inv(s) && Enabled(s, step) && ip in Apply(s, step).entries
    ensures Covered(Apply(s, step), ip, Apply(s, step).entries[ip])
  {
    if ip in s.entries && s.entries[ip] == Apply(s, step).entries[ip] {
      assert Covered(s, ip, s.entries[ip]);
      PendingStays(s, step, ip, s.entries[ip]);
    }
  }

  /** A claim succeeds only when every earlier unreleased claim of the address has run out. */
  lemma ClaimIsLate(s: State, ip: string, t: int, i: nat)
    requires Inv(s) && t <= s.now && Claimable(s.entries, ip, t)
    requires i < |s.hist| && s.hist[i].Claimed? && s.hist[i].ip == ip && Released(ip) !in s.hist[i..]
    ensures s.now >= s.hist[i].t + DIAGNOSTIC_TTL
  {
    assert Standing(s, i);
  }

  lemma StepKeepsStanding(s: State, step: Step, i: nat)
    requires Inv(s) && Enabled(s, step) && i < |Apply(s, step).hist|
    ensures Standing(Apply(s, step), i)
  {
    var t := Apply(s, step);
    if i < |s.hist| {
      assert Standing(s, i);
      var ip := s.hist[i].ip;
      assert t.hist[i..] == s.hist[i..] + t.hist[|s.hist|..];
      if step.Free? { assert t.hist[|s.hist|..] == [Released(step.ip)]; }
      if t.hist[i].Claimed? && Released(ip) !in t.hist[i..] {
        if step.TryClaim? && step.ip == ip && Claimable(s.entries, ip, step.t) { ClaimIsLate(s, ip, step.t, i); }
        if step.Expire? { assert step.timer.expiry <= step.timer.due; }
      }
    }
  }

  lemma StepKeepsPairs(s: State, step: Step, i: nat, j: nat)
    requires Inv(s) && Enabled(s, step) && ClaimPair(Apply(s, step).hist, i, j)
    ensures Apply(s, step).hist[j].at >= Apply(s, step).hist[i].t + DIAGNOSTIC_TTL
  {
    var h := Apply(s, step).hist;
    if j < |s.hist| {
      assert h[i..j] == s.hist[i..j];
      assert ClaimPair(s.hist, i, j);
    } else {
      assert h[i..j] == s.hist[i..];
      ClaimIsLate(s, step.ip, step.t, i);
    }
  }

  lemma StepKeepsInv(s: State, step: Step)
    requires Inv(s) && Enabled(s, step)
    ensures Inv(Apply(s, step))
  {
    var t := Apply(s, step);
    forall ip <- t.entries ensures Covered(t, ip, t.entries[ip]) { StepKeepsCovered(s, step, ip); }
    forall i | 0 <= i < |t.hist| ensures Standing(t, i) { StepKeepsStanding(s, step, i); }
    forall i: nat, j: nat | ClaimPair(t.hist, i, j) ensures t.hist[j].at >= t.hist[i].t + DIAGNOSTIC_TTL {
      StepKeepsPairs(s, step, i, j);
    }
  }

  lemma {:induction false} RunKeepsInv(s: State, steps: seq<Step>)
    requires Inv(s) && Run(s, steps).Some?
    ensures Inv(Run(s, steps).value)
    decreases |steps|
  {
    if steps != [] {
      StepKeepsInv(s, steps[0]);
      RunKeepsInv(Apply(s, steps[0]), steps[1..]);
    }
  }

  lemma ReachableInv(s: State)
    requires Reachable(s)
    ensures Inv(s)
  {
    var steps :| Run(INITIAL, steps) == Some(s);
    RunKeepsInv(INITIAL, steps);
  }

  // ---------------------------------------------------------------- what the claims guarantee

  /**
   Of two successful claims of one address without a release in between, the later one gets the lock no
   earlier than one TTL after the earlier one's reading of the clock; for claims that read the clock as
   they get the lock, the two are at least one TTL apart.
   */
  lemma ClaimsAreSpaced(s: State, i: nat, j: nat)
    requires Reachable(s) && ClaimPair(s.hist, i, j)
    ensures s.hist[j].at - s.hist[i].t >= DIAGNOSTIC_TTL
    ensures s.hist[i].t == s.hist[i].at ==> s.hist[j].at - s.hist[i].at >= DIAGNOSTIC_TTL
  {
    ReachableInv(s);
  }

  /** A claim of `ip` at the history's index i that was not released since. */
  predicate Unreleased(h: seq<Event>, i: nat, ip: string) {
    i < |h| && h[i].Claimed? && h[i].ip == ip && Released(ip) !in h[i..]
  }

  /** The entry of `ip` was stored by a claim that was not released since. */
  ghost predicate FoundedAt(s: State, ip: string)
    requires ip in s.entries
  {
    exists i :: 0 <= i < |s.hist| && Unreleased(s.hist, i, ip) && s.entries[ip] == s.hist[i].t + DIAGNOSTIC_TTL
  }

  ghost predicate Founded(s: State) {
    forall ip <- s.entries :: FoundedAt(s, ip)
  }

  lemma OtherStepKeepsEntry(s: State, step: Step, ip: string)
    requires Enabled(s, step) && ip in Apply(s, step).entries
    requires !(step.TryClaim? && step.ip == ip && Claimable(s.entries, ip, step.t))
    ensures ip in s.entries && Apply(s, step).entries[ip] == s.entries[ip] && step != Free(ip)
  {
  }

  lemma StaysUnreleased(s: State, step: Step, i: nat, ip: string)
    requires Enabled(s, step) && step != Free(ip) && Unreleased(s.hist, i, ip)
    ensures Unreleased(Apply(s, step).hist, i, ip) && Apply(s, step).hist[i] == s.hist[i]
  {
    var h := Apply(s, step).hist;
    assert h[i..] == s.hist[i..] + h[|s.hist|..];
    assert Released(ip) !in h[|s.hist|..];
  }

  lemma ClaimFounds(s: State, step: Step)
    requires Enabled(s, step) && step.TryClaim? && Claimable(s.entries, step.ip, step.t)
    ensures step.ip in Apply(s, step).entries && FoundedAt(Apply(s, step), step.ip)
  {
    var h := Apply(s, step).hist;
    assert h[|s.hist|..] == [h[|s.hist|]];
    assert Unreleased(h, |s.hist|, step.ip);
  }

  lemma StaysFounded(s: State, step: Step, ip: string)
    requires Founded(s) && Enabled(s, step) && ip in Apply(s, step).entries
    ensures FoundedAt(Apply(s, step), ip)
  {
    if step.TryClaim? && step.ip == ip && Claimable(s.entries, ip, step.t) {
      ClaimFounds(s, step);
    } else {
      OtherStepKeepsEntry(s, step, ip);
      assert FoundedAt(s, ip);
      var i :| 0 <= i < |s.hist| && Unreleased(s.hist, i, ip) && s.entries[ip] == s.hist[i].t + DIAGNOSTIC_TTL;
      StaysUnreleased(s, step, i, ip);
    }
  }

  lemma {:induction false} RunKeepsFounded(s: State, steps: seq<Step>)
    requires Founded(s) && Run(s, steps).Some?
    ensures Founded(Run(s, steps).value)
    decreases |steps|
  {
    if steps != [] {
      forall ip <- Apply(s, steps[0]).entries ensures FoundedAt(Apply(s, steps[0]), ip) {
        StaysFounded(s, steps[0], ip);
      }
      RunKeepsFounded(Apply(s, steps[0]), steps[1..]);
    }
  }

  /**
   In every reachable state a claim that reads the clock now succeeds if and only if every claim of the address
   that was not released since was made at least ten minutes ago.
   */
  lemma ClaimSucceedsExactly(s: State, ip: string)
    requires Reachable(s)
    ensures Claimable(s.entries, ip, s.now)
       <==> forall i :: 0 <= i < |s.hist| && Unreleased(s.hist, i, ip) ==> s.now - s.hist[i].t >= 600_000_000_000
    ensures Claimable(s.entries, ip, s.now) ==>
      Claim(s.entries, ip, s.now) == s.entries[ip := s.now + 600_000_000_000]
    ensures !Claimable(s.entries, ip, s.now) ==> Claim(s.entries, ip, s.now) == s.entries
  {
    ReachableInv(s);
    var steps :| Run(INITIAL, steps) == Some(s);
    RunKeepsFounded(INITIAL, steps);
    assert ip in s.entries ==> FoundedAt(s, ip);
    forall i | 0 <= i < |s.hist| && Unreleased(s.hist, i, ip) && Claimable(s.entries, ip, s.now)
      ensures s.now - s.hist[i].t >= DIAGNOSTIC_TTL
    {
      assert Standing(s, i);
    }
  }

  /** A timer never removes an entry that has not expired, whoever stored it and whenever the timer was armed. */
  lemma TimersSpareLiveClaims(s: State, timer: Timer, ip: string)
    requires Reachable(s) && Enabled(s, Expire(timer)) && ip in s.entries
    ensures ip !in Apply(s, Expire(timer)).entries ==> s.entries[ip] <= s.now && ip == timer.ip
    ensures ip in Apply(s, Expire(timer)).entries ==> Apply(s, Expire(timer)).entries[ip] == s.entries[ip]
  {
    ReachableInv(s);
  }

  /** Every entry has a timer, armed or about to be, whose firing will remove it; no timers, no entries. */
  lemma EntriesAreNotRetained(s: State, ip: string)
    requires Reachable(s) && ip in s.entries
    ensures Arming(ip, s.entries[ip]) in s.arming
         || exists due :: Timer(ip, s.entries[ip], due) in s.timers && due <= s.now + 600_000_000_000
                          && ip !in Fire(s.entries, ip, s.entries[ip])
    ensures s.arming != multiset{} || s.timers != multiset{}
  {
    ReachableInv(s);
    assert Covered(s, ip, s.entries[ip]);
    if Arming(ip, s.entries[ip]) !in s.arming {
      var due :| Timer(ip, s.entries[ip], due) in s.timers;
      assert ip !in Fire(s.entries, ip, s.entries[ip]);
    }
  }
}
