/**
 The WebSocket splice at the end of handleWS in internal/proxy/proxy.go: two pump goroutines, the
 channel errc of capacity two, and the handler that waits, closes, waits again and then accounts.

 A pump is modelled chunk by chunk. What its source will ever deliver is a byte sequence that the
 outside world may extend; reads and writes take any size and may fail at any time.
 */
module Tunnel {
  import opened Common

  /** `Drain...` are the phases of CopyN over the bytes already buffered, `Copy...` those of Copy. */
  datatype PumpPc =
    | DrainRead
    | DrainWrite(chunk: seq<byte>)
    | DrainAdd(ok: bool)
    | CopyRead
    | CopyWrite(chunk: seq<byte>)
    | CopyAdd
    | Send
    | Exited

  /**
   `buffered` was read past the handshake before the tunnel started, `live` has arrived since; the pump has
   taken `taken` bytes of the one and `read` bytes of the other, has written `out`, of which `n` bytes belong
   to the copy under way and `total` have been added to the shared counter. `viaReader` tells that its Copy
   reads through the buffered reader. `ended` tells that Copy met the end or an error of its source, `failed`
   that a write failed.
   */
  datatype Pump = Pump(pc: PumpPc, viaReader: bool, buffered: seq<byte>, live: seq<byte>, taken: nat, read: nat,
                       out: seq<byte>, n: nat, total: nat, ended: bool, failed: bool)
  {
    function Stream(): seq<byte> {
      buffered + live
    }

    /** Everything the pump has read. */
    function Seen(): seq<byte>
      requires taken <= |buffered| && read <= |live|
    {
      buffered[..taken] + live[..read]
    }

    /** Bytes read and not yet written. */
    function InHand(): seq<byte> {
      if pc.DrainWrite? || pc.CopyWrite? then pc.chunk else []
    }

    /** The next read takes buffered bytes: in the drain always, in Copy as long as its reader holds some. */
    predicate FromBuffer() {
      pc.DrainRead? || (viaReader && taken < |buffered|)
    }
  }

  datatype HandlerPc = AwaitFirst | CloseClient | CloseBackend | AwaitSecond | Account | Over

  datatype Splice = Splice(up: Pump, down: Pump, queued: nat, received: nat,
                           clientOpen: bool, backendOpen: bool, handler: HandlerPc,
                           reported: Option<(nat, nat)>)

  const CHANNEL_CAPACITY := 2

  /** The tunnel as handleWS starts it. The upward pump drains only if the reader holds something. */
  function Start(clientBuffered: seq<byte>, backendBuffered: seq<byte>): Splice {
    var first := if clientBuffered == [] then CopyRead else DrainRead;
    Splice(Pump(first, false, clientBuffered, [], 0, 0, [], 0, 0, false, false),
           Pump(CopyRead, true, backendBuffered, [], 0, 0, [], 0, 0, false, false),
           0, 0, true, true, AwaitFirst, None)
  }

  datatype PumpStep =
    | Feed(bytes: seq<byte>)      // the peer sends
    | Take(k: nat)                // a read returns k bytes
    | Stop                        // a read returns end of stream or an error, or the drain is complete
    | Put(j: nat, ok: bool)       // a write takes j bytes
    | Add                         // the atomic addition to the shared counter
    | Post                        // the send on errc

  datatype Step = Up(p: PumpStep) | Down(p: PumpStep) | Receive | Close | Finish

  /**
   One pump's step, given whether its source and its destination are still open on this side. The upward
   pump copies from the connection itself, which knows nothing of the bytes buffered before; the downward one
   from the buffered reader, which first yields what it holds, also after the connection is closed.
   */
  predicate PumpEnabled(p: Pump, st: PumpStep, srcOpen: bool, dstOpen: bool, queued: nat) {
    match st
    case Feed(_) => srcOpen
    case Take(k) =>
      && k > 0 && (p.pc.DrainRead? || p.pc.CopyRead?)
      && if p.FromBuffer() then p.taken + k <= |p.buffered| else srcOpen && p.read + k <= |p.live|
    case Stop =>
      || (p.pc.DrainRead? && p.taken == |p.buffered|)
      || (p.pc.CopyRead? && !p.FromBuffer())
    case Put(j, ok) =>
      (p.pc.DrainWrite? || p.pc.CopyWrite?) && j <= |p.pc.chunk|
      && (ok ==> j == |p.pc.chunk| && dstOpen) && (!dstOpen ==> j == 0)
    case Add => p.pc.DrainAdd? || p.pc.CopyAdd?
    case Post => p.pc.Send? && queued < CHANNEL_CAPACITY
  }

  function PumpApply(p: Pump, st: PumpStep, srcOpen: bool, dstOpen: bool, queued: nat): Pump
    requires PumpEnabled(p, st, srcOpen, dstOpen, queued)
  {
    match st
    case Feed(bytes) => p.(live := p.live + bytes)
    case Take(k) =>
      if p.pc.DrainRead? then p.(taken := p.taken + k, pc := DrainWrite(p.buffered[p.taken..p.taken + k]))
      else if p.FromBuffer() then p.(taken := p.taken + k, pc := CopyWrite(p.buffered[p.taken..p.taken + k]))
      else p.(read := p.read + k, pc := CopyWrite(p.live[p.read..p.read + k]))
    case Stop => if p.pc.DrainRead? then p.(pc := DrainAdd(true)) else p.(pc := CopyAdd, ended := true)
    case Put(j, ok) =>
      var next := if p.pc.DrainWrite? then (if ok then DrainRead else DrainAdd(false))
                  else (if ok then CopyRead else CopyAdd);
      p.(out := p.out + p.pc.chunk[..j], n := p.n + j, pc := next, failed := p.failed || !ok)
    case Add => p.(total := p.total + p.n, n := 0, pc := if p.pc == DrainAdd(true) then CopyRead else Send)
    case Post => p.(pc := Exited)
  }

  predicate Enabled(s: Splice, st: Step) {
    match st
    case Up(p) => PumpEnabled(s.up, p, s.clientOpen, s.backendOpen, s.queued)
    case Down(p) => PumpEnabled(s.down, p, s.backendOpen, s.clientOpen, s.queued)
    case Receive => s.queued > 0 && (s.handler.AwaitFirst? || s.handler.AwaitSecond?)
    case Close => s.handler.CloseClient? || s.handler.CloseBackend?
    case Finish => s.handler.Account?
  }

  function Apply(s: Splice, st: Step): Splice
    requires Enabled(s, st)
  {
    match st
    case Up(p) =>
      s.(up := PumpApply(s.up, p, s.clientOpen, s.backendOpen, s.queued),
         queued := if p.Post? then s.queued + 1 else s.queued)
    case Down(p) =>
      s.(down := PumpApply(s.down, p, s.backendOpen, s.clientOpen, s.queued),
         queued := if p.Post? then s.queued + 1 else s.queued)
    case Receive =>
      s.(queued := s.queued - 1, received := s.received + 1,
         handler := if s.handler.AwaitFirst? then CloseClient else Account)
    case Close =>
      if s.handler.CloseClient? then s.(clientOpen := false, handler := CloseBackend)
      else s.(backendOpen := false, handler := AwaitSecond)
    case Finish => s.(reported := Some((s.up.total, s.down.total)), handler := Over)
  }

  function Run(s: Splice, steps: seq<Step>): Option<Splice>
    decreases |steps|
  {
    if steps == [] then Some(s)
    else if Enabled(s, steps[0]) then Run(Apply(s, steps[0]), steps[1..])
    else None
  }

  // ---------------------------------------------------------------- the invariant

  predicate PumpInv(p: Pump) {
    && p.taken <= |p.buffered| && p.read <= |p.live|
    && p.total + p.n == |p.out|
    && (p.read > 0 ==> p.taken == |p.buffered|)
    && (!p.viaReader && (p.pc == DrainAdd(true) || p.pc.CopyRead? || p.pc.CopyWrite?) ==> p.taken == |p.buffered|)
    && (p.ended ==> p.taken == |p.buffered|)
    && (p.pc.DrainRead? || p.pc.DrainWrite? || p.pc.DrainAdd? ==> !p.viaReader)
    && (if p.failed then
          && p.out <= p.Seen()
          && (p.pc == DrainAdd(false) || p.pc.CopyAdd? || p.pc.Send? || p.pc.Exited?)
        else p.out + p.InHand() == p.Seen())
    && (p.pc == DrainAdd(false) ==> p.failed)
    && (p.pc.CopyAdd? || p.pc.Send? || p.pc.Exited? ==> p.failed || p.ended)
    && (p.pc.Send? || p.pc.Exited? ==> p.n == 0)
  }

  predicate Inv(s: Splice) {
    && PumpInv(s.up) && PumpInv(s.down) && !s.up.viaReader && s.down.viaReader
    && s.queued + s.received == Bit(s.up.pc.Exited?) + Bit(s.down.pc.Exited?)
    && (match s.handler
        case AwaitFirst => s.received == 0 && s.clientOpen && s.backendOpen
        case CloseClient => s.received == 1 && s.clientOpen && s.backendOpen
        case CloseBackend => s.received == 1 && !s.clientOpen && s.backendOpen
        case AwaitSecond => s.received == 1 && !s.clientOpen && !s.backendOpen
        case _ => s.received == 2 && !s.clientOpen && !s.backendOpen)
    && (s.reported.Some? <==> s.handler.Over?)
    && (s.reported.Some? ==> s.reported.value == (|s.up.out|, |s.down.out|))
  }

  lemma FeedKeepsInv(p: Pump, bytes: seq<byte>)
    requires PumpInv(p)
    ensures PumpInv(p.(live := p.live + bytes))
  {
    assert p.(live := p.live + bytes).Seen() == p.Seen();
  }

  lemma SeenBuffered(p: Pump, k: nat)
    requires p.taken + k <= |p.buffered| && p.read == 0
    ensures p.(taken := p.taken + k).Seen() == p.Seen() + p.buffered[p.taken..p.taken + k]
  {
    assert p.buffered[..p.taken + k] == p.buffered[..p.taken] + p.buffered[p.taken..p.taken + k];
  }

  lemma SeenLive(p: Pump, k: nat)
    requires p.taken <= |p.buffered| && p.read + k <= |p.live|
    ensures p.(read := p.read + k).Seen() == p.Seen() + p.live[p.read..p.read + k]
  {
    assert p.live[..p.read + k] == p.live[..p.read] + p.live[p.read..p.read + k];
  }

  lemma TakeBufferedKeepsInv(p: Pump, k: nat, srcOpen: bool, dstOpen: bool, queued: nat)
    requires PumpInv(p) && PumpEnabled(p, Take(k), srcOpen, dstOpen, queued) && p.FromBuffer()
    ensures PumpInv(PumpApply(p, Take(k), srcOpen, dstOpen, queued))
  {
    SeenBuffered(p, k);
  }

  lemma TakeLiveKeepsInv(p: Pump, k: nat, srcOpen: bool, dstOpen: bool, queued: nat)
    requires PumpInv(p) && PumpEnabled(p, Take(k), srcOpen, dstOpen, queued) && !p.FromBuffer()
    ensures PumpInv(PumpApply(p, Take(k), srcOpen, dstOpen, queued))
  {
    SeenLive(p, k);
  }

  lemma PutKeepsInv(p: Pump, j: nat, ok: bool, srcOpen: bool, dstOpen: bool, queued: nat)
    requires PumpInv(p) && PumpEnabled(p, Put(j, ok), srcOpen, dstOpen, queued)
    ensures PumpInv(PumpApply(p, Put(j, ok), srcOpen, dstOpen, queued))
  {
    assert p.out + p.pc.chunk == p.out + p.pc.chunk[..j] + p.pc.chunk[j..];
  }

  lemma PumpKeepsInv(p: Pump, st: PumpStep, srcOpen: bool, dstOpen: bool, queued: nat)
    requires PumpInv(p) && PumpEnabled(p, st, srcOpen, dstOpen, queued)
    ensures PumpInv(PumpApply(p, st, srcOpen, dstOpen, queued))
    ensures PumpApply(p, st, srcOpen, dstOpen, queued).viaReader == p.viaReader
  {
    match st {
      case Feed(bytes) => FeedKeepsInv(p, bytes);
      case Take(k) =>
        if p.FromBuffer() {
          TakeBufferedKeepsInv(p, k, srcOpen, dstOpen, queued);
        } else {
          TakeLiveKeepsInv(p, k, srcOpen, dstOpen, queued);
        }
      case Put(j, ok) => PutKeepsInv(p, j, ok, srcOpen, dstOpen, queued);
      case _ =>
    }
  }

  lemma PumpStepKeepsInv(s: Splice, st: Step)
    requires Inv(s) && Enabled(s, st) && (st.Up? || st.Down?)
    ensures Inv(Apply(s, st))
  {
    match st {
      case Up(p) => PumpKeepsInv(s.up, p, s.clientOpen, s.backendOpen, s.queued);
      case Down(p) => PumpKeepsInv(s.down, p, s.backendOpen, s.clientOpen, s.queued);
      case _ =>
    }
  }

  lemma StepKeepsInv(s: Splice, st: Step)
    requires Inv(s) && Enabled(s, st)
    ensures Inv(Apply(s, st))
  {
    if st.Up? || st.Down? { PumpStepKeepsInv(s, st); }
  }

  lemma {:induction false} RunKeepsInv(s: Splice, steps: seq<Step>)
    requires Inv(s) && Run(s, steps).Some?
    ensures Inv(Run(s, steps).value)
    decreases |steps|
  {
    if steps != [] {
      StepKeepsInv(s, steps[0]);
      RunKeepsInv(Apply(s, steps[0]), steps[1..]);
    }
  }

  ghost predicate Reachable(cb: seq<byte>, bb: seq<byte>, t: Splice) {
    exists steps :: Run(Start(cb, bb), steps) == Some(t)
  }

  lemma ReachableInv(cb: seq<byte>, bb: seq<byte>, t: Splice)
    requires Reachable(cb, bb, t)
    ensures Inv(t)
  {
    var steps :| Run(Start(cb, bb), steps) == Some(t);
    RunKeepsInv(Start(cb, bb), steps);
  }

  lemma {:induction false} BuffersStay(s: Splice, steps: seq<Step>)
    requires Run(s, steps).Some?
    ensures Run(s, steps).value.up.buffered == s.up.buffered && Run(s, steps).value.down.buffered == s.down.buffered
    decreases |steps|
  {
    if steps != [] { BuffersStay(Apply(s, steps[0]), steps[1..]); }
  }

  // ---------------------------------------------------------------- what the splice guarantees

  /** What the pump has read is the beginning of its stream, and what it has written the beginning of that. */
  lemma SeenIsPrefix(p: Pump)
    requires PumpInv(p)
    ensures p.Seen() <= p.Stream() && p.out <= p.Seen()
    ensures p.ended ==> p.Seen() == p.buffered + p.live[..p.read]
  {
    if p.read == 0 {
      assert p.Seen() == p.Stream()[..p.taken];
    } else {
      assert p.Seen() == p.Stream()[..p.taken + p.read];
    }
  }

  /**
   In every reachable state each peer has been sent a prefix of what the other one sent, starting with
   the bytes buffered before the tunnel began; all that was read, unless a write failed.
   */
  lemma DeliversInOrder(cb: seq<byte>, bb: seq<byte>, t: Splice)
    requires Reachable(cb, bb, t)
    ensures t.up.out <= cb + t.up.live && t.down.out <= bb + t.down.live
    ensures t.up.taken <= |cb| && t.up.read <= |t.up.live| && t.down.taken <= |bb| && t.down.read <= |t.down.live|
    ensures !t.up.failed ==> t.up.out + t.up.InHand() == cb[..t.up.taken] + t.up.live[..t.up.read]
    ensures !t.down.failed ==> t.down.out + t.down.InHand() == bb[..t.down.taken] + t.down.live[..t.down.read]
  {
    ReachableInv(cb, bb, t);
    var steps :| Run(Start(cb, bb), steps) == Some(t);
    BuffersStay(Start(cb, bb), steps);
    SeenIsPrefix(t.up);
    SeenIsPrefix(t.down);
  }

  predicate HasEnded(p: Pump) {
    p.pc.Send? || p.pc.Exited?
  }

  /**
   A pump ends only for a cause: a write failed, or its source ended; and in the second case it has delivered
   all the buffered bytes and everything that it read up to that end. The handler closes the connections
   only after a pump has ended.
   */
  lemma PumpsEndForCause(cb: seq<byte>, bb: seq<byte>, t: Splice)
    requires Reachable(cb, bb, t)
    ensures HasEnded(t.up) ==> t.up.failed || t.up.ended
    ensures HasEnded(t.down) ==> t.down.failed || t.down.ended
    ensures t.up.read <= |t.up.live| && t.down.read <= |t.down.live|
    ensures HasEnded(t.up) && !t.up.failed ==> t.up.out == cb + t.up.live[..t.up.read]
    ensures HasEnded(t.down) && !t.down.failed ==> t.down.out == bb + t.down.live[..t.down.read]
    ensures !t.clientOpen || !t.backendOpen ==> t.up.pc.Exited? || t.down.pc.Exited?
  {
    ReachableInv(cb, bb, t);
    var steps :| Run(Start(cb, bb), steps) == Some(t);
    BuffersStay(Start(cb, bb), steps);
    SeenIsPrefix(t.up);
    SeenIsPrefix(t.down);
    assert HasEnded(t.up) ==> t.up.InHand() == [];
    assert HasEnded(t.down) ==> t.down.InHand() == [];
  }

  /** A pump about to post always finds room in the channel: it never blocks there, and it posts once. */
  lemma PostNeverBlocks(cb: seq<byte>, bb: seq<byte>, t: Splice)
    requires Reachable(cb, bb, t)
    ensures t.up.pc.Send? ==> Enabled(t, Up(Post))
    ensures t.down.pc.Send? ==> Enabled(t, Down(Post))
    ensures t.queued + t.received == Bit(t.up.pc.Exited?) + Bit(t.down.pc.Exited?)
  {
    ReachableInv(cb, bb, t);
  }

  /** When the handler accounts, both pumps are gone and the counters are the bytes delivered. */
  lemma AccountsExactly(cb: seq<byte>, bb: seq<byte>, t: Splice)
    requires Reachable(cb, bb, t) && (t.handler.Account? || t.handler.Over?)
    ensures t.up.pc.Exited? && t.down.pc.Exited?
    ensures t.up.total == |t.up.out| && t.down.total == |t.down.out|
    ensures t.handler.Over? ==> t.reported == Some((|t.up.out|, |t.down.out|))
  {
    ReachableInv(cb, bb, t);
  }

  // ---------------------------------------------------------------- shutdown

  function PumpRank(pc: PumpPc): nat {
    match pc
    case DrainRead => 8
    case DrainWrite(_) => 7
    case DrainAdd(ok) => if ok then 6 else 2
    case CopyRead => 5
    case CopyWrite(_) => 4
    case CopyAdd => 2
    case Send => 1
    case Exited => 0
  }

  /** How many steps a closed splice may still take. */
  function Rank(s: Splice): nat {
    PumpRank(s.up.pc) + PumpRank(s.down.pc) +
    (match s.handler case AwaitSecond => 2 case Account => 1 case _ => 0)
  }

  predicate Closed(s: Splice) {
    s.handler.AwaitSecond? || s.handler.Account? || s.handler.Over?
  }

  lemma ClosedStepsDescend(s: Splice, st: Step)
    requires Inv(s) && Closed(s) && Enabled(s, st)
    ensures Closed(Apply(s, st)) && Rank(Apply(s, st)) < Rank(s)
  {
  }

  /** Once both connections are closed, every run is short. */
  lemma {:induction false} ShutdownIsShort(s: Splice, steps: seq<Step>)
    requires Inv(s) && Closed(s) && Run(s, steps).Some?
    ensures |steps| + Rank(Run(s, steps).value) <= Rank(s) && Closed(Run(s, steps).value)
    decreases |steps|
  {
    if steps != [] {
      ClosedStepsDescend(s, steps[0]);
      StepKeepsInv(s, steps[0]);
      ShutdownIsShort(Apply(s, steps[0]), steps[1..]);
    }
  }

  /** The next thing a pump can do without waiting for its peer. */
  function NextPumpStep(p: Pump): PumpStep {
    match p.pc
    case DrainRead => if p.taken < |p.buffered| then Take(1) else Stop
    case DrainWrite(_) => Put(0, false)
    case DrainAdd(_) => Add
    case CopyRead => if p.FromBuffer() then Take(1) else Stop
    case CopyWrite(_) => Put(0, false)
    case CopyAdd => Add
    case _ => Post
  }

  function NextStep(s: Splice): Step {
    match s.handler
    case CloseClient => Close
    case CloseBackend => Close
    case Account => Finish
    case _ =>
      if s.queued > 0 then Receive
      else if !s.up.pc.Exited? then Up(NextPumpStep(s.up))
      else Down(NextPumpStep(s.down))
  }

  lemma NeverStuck(t: Splice)
    requires Inv(t) && (t.up.pc.Exited? || t.down.pc.Exited? || Closed(t))
    ensures !t.handler.Over? ==> Enabled(t, NextStep(t))
    ensures t.handler.AwaitFirst? ==> NextStep(t) == Receive
  {
  }

  /**
   Once either pump has ended, the handler always collects both: it is never stuck before its
   accounting is done, its two closing steps wait for nobody, and after them at most 10 steps remain.
   */
  lemma ShutdownCompletes(cb: seq<byte>, bb: seq<byte>, t: Splice, steps: seq<Step>)
    requires Reachable(cb, bb, t) && (t.up.pc.Exited? || t.down.pc.Exited?)
    ensures !t.handler.Over? ==> Enabled(t, NextStep(t))
    ensures t.handler.AwaitFirst? ==> NextStep(t) == Receive
    ensures Closed(t) && Run(t, steps).Some? ==> |steps| <= 10
    ensures Closed(t) && Run(t, steps).Some? && (forall st :: !Enabled(Run(t, steps).value, st)) ==>
      Run(t, steps).value.reported == Some((|Run(t, steps).value.up.out|, |Run(t, steps).value.down.out|))
  {
    ReachableInv(cb, bb, t);
    NeverStuck(t);
    if Closed(t) && Run(t, steps).Some? {
      ShutdownIsShort(t, steps);
      RunKeepsInv(t, steps);
      NeverStuck(Run(t, steps).value);
    }
  }

  // ---------------------------------------------------------------- everything can be delivered

  lemma {:induction false} RunSnoc(s: Splice, steps: seq<Step>, st: Step)
    requires Run(s, steps).Some? && Enabled(Run(s, steps).value, st)
    ensures Run(s, steps + [st]) == Some(Apply(Run(s, steps).value, st))
    decreases |steps|
  {
    if steps == [] {
      assert [st][1..] == [];
    } else {
      assert (steps + [st])[0] == steps[0] && (steps + [st])[1..] == steps[1..] + [st];
      RunSnoc(Apply(s, steps[0]), steps[1..], st);
    }
  }

  lemma ReachStep(cb: seq<byte>, bb: seq<byte>, s: Splice, st: Step)
    requires Reachable(cb, bb, s) && Enabled(s, st)
    ensures Reachable(cb, bb, Apply(s, st))
  {
    var steps :| Run(Start(cb, bb), steps) == Some(s);
    RunSnoc(Start(cb, bb), steps, st);
  }

  /** Between a read and the next one, both connections being open, a pump at CopyRead has written all it read. */
  predicate Idle(p: Pump) {
    p.pc.CopyRead? && p.taken == |p.buffered| && p.read == |p.live|
  }

  /** The upward pump passes on the buffered bytes, if there are any, and starts to copy. */
  lemma UpDrains(cb: seq<byte>, bb: seq<byte>) returns (t: Splice)
    ensures Reachable(cb, bb, t)
    ensures t == Start(cb, bb).(up := Pump(CopyRead, false, cb, [], |cb|, 0, cb, 0, |cb|, false, false))
  {
    var s := Start(cb, bb);
    assert Run(s, []) == Some(s);
    t := s;
    if cb != [] {
      ReachStep(cb, bb, t, Up(Take(|cb|)));
      t := Apply(t, Up(Take(|cb|)));
      assert cb[0..|cb|] == cb;
      ReachStep(cb, bb, t, Up(Put(|cb|, true)));
      t := Apply(t, Up(Put(|cb|, true)));
      assert [] + cb[..|cb|] == cb;
      ReachStep(cb, bb, t, Up(Stop));
      t := Apply(t, Up(Stop));
      ReachStep(cb, bb, t, Up(Add));
      t := Apply(t, Up(Add));
    }
  }

  /** What arrives from the client is passed on. */
  lemma UpCarries(cb: seq<byte>, bb: seq<byte>, s: Splice, bytes: seq<byte>) returns (t: Splice)
    requires Reachable(cb, bb, s) && s.clientOpen && s.backendOpen && Idle(s.up) && !s.up.viaReader && bytes != []
    ensures Reachable(cb, bb, t)
    ensures t == s.(up := s.up.(live := s.up.live + bytes, read := s.up.read + |bytes|, out := s.up.out + bytes,
                                n := s.up.n + |bytes|))
  {
    var k := |bytes|;
    ReachStep(cb, bb, s, Up(Feed(bytes)));
    t := Apply(s, Up(Feed(bytes)));
    ReachStep(cb, bb, t, Up(Take(k)));
    assert t.up.live[t.up.read..t.up.read + k] == bytes;
    t := Apply(t, Up(Take(k)));
    ReachStep(cb, bb, t, Up(Put(k, true)));
    assert bytes[..k] == bytes;
    t := Apply(t, Up(Put(k, true)));
  }

  /** What the backend sent with its handshake is passed on. */
  lemma DownDrains(cb: seq<byte>, bb: seq<byte>, s: Splice) returns (t: Splice)
    requires Reachable(cb, bb, s) && s.clientOpen && s.backendOpen
    requires s.down == Pump(CopyRead, true, bb, [], 0, 0, [], 0, 0, false, false)
    ensures Reachable(cb, bb, t)
    ensures t == s.(down := Pump(CopyRead, true, bb, [], |bb|, 0, bb, |bb|, 0, false, false))
  {
    t := s;
    if bb != [] {
      ReachStep(cb, bb, t, Down(Take(|bb|)));
      t := Apply(t, Down(Take(|bb|)));
      assert bb[0..|bb|] == bb;
      ReachStep(cb, bb, t, Down(Put(|bb|, true)));
      t := Apply(t, Down(Put(|bb|, true)));
      assert [] + bb[..|bb|] == bb;
    }
  }

  lemma DownCarries(cb: seq<byte>, bb: seq<byte>, s: Splice, bytes: seq<byte>) returns (t: Splice)
    requires Reachable(cb, bb, s) && s.clientOpen && s.backendOpen && Idle(s.down) && bytes != []
    ensures Reachable(cb, bb, t)
    ensures t == s.(down := s.down.(live := s.down.live + bytes, read := s.down.read + |bytes|,
                                    out := s.down.out + bytes, n := s.down.n + |bytes|))
  {
    var k := |bytes|;
    ReachStep(cb, bb, s, Down(Feed(bytes)));
    t := Apply(s, Down(Feed(bytes)));
    ReachStep(cb, bb, t, Down(Take(k)));
    assert t.down.live[t.down.read..t.down.read + k] == bytes;
    t := Apply(t, Down(Take(k)));
    ReachStep(cb, bb, t, Down(Put(k, true)));
    assert bytes[..k] == bytes;
    t := Apply(t, Down(Put(k, true)));
  }

  lemma UpEnds(cb: seq<byte>, bb: seq<byte>, s: Splice) returns (t: Splice)
    requires Reachable(cb, bb, s) && s.queued < CHANNEL_CAPACITY && s.up.pc.CopyRead? && !s.up.FromBuffer()
    ensures Reachable(cb, bb, t)
    ensures t == s.(up := s.up.(pc := Exited, ended := true, total := s.up.total + s.up.n, n := 0),
                    queued := s.queued + 1)
  {
    ReachStep(cb, bb, s, Up(Stop));
    t := Apply(s, Up(Stop));
    ReachStep(cb, bb, t, Up(Add));
    t := Apply(t, Up(Add));
    ReachStep(cb, bb, t, Up(Post));
    t := Apply(t, Up(Post));
  }

  lemma DownEnds(cb: seq<byte>, bb: seq<byte>, s: Splice) returns (t: Splice)
    requires Reachable(cb, bb, s) && s.queued < CHANNEL_CAPACITY && s.down.pc.CopyRead? && !s.down.FromBuffer()
    ensures Reachable(cb, bb, t)
    ensures t == s.(down := s.down.(pc := Exited, ended := true, total := s.down.total + s.down.n, n := 0),
                    queued := s.queued + 1)
  {
    ReachStep(cb, bb, s, Down(Stop));
    t := Apply(s, Down(Stop));
    ReachStep(cb, bb, t, Down(Add));
    t := Apply(t, Down(Add));
    ReachStep(cb, bb, t, Down(Post));
    t := Apply(t, Down(Post));
  }

  /** The handler collects the first result and closes both connections. */
  lemma HandlerCloses(cb: seq<byte>, bb: seq<byte>, s: Splice) returns (t: Splice)
    requires Reachable(cb, bb, s) && s.handler.AwaitFirst? && s.queued > 0
    ensures Reachable(cb, bb, t)
    ensures t == s.(queued := s.queued - 1, received := s.received + 1, clientOpen := false, backendOpen := false,
                    handler := AwaitSecond)
  {
    ReachStep(cb, bb, s, Receive);
    t := Apply(s, Receive);
    ReachStep(cb, bb, t, Close);
    t := Apply(t, Close);
    ReachStep(cb, bb, t, Close);
    t := Apply(t, Close);
  }

  /** The client goes away when all is delivered, and the handler accounts for everything. */
  lemma CloseDown(cb: seq<byte>, bb: seq<byte>, s: Splice) returns (t: Splice)
    requires Reachable(cb, bb, s) && s.handler.AwaitFirst? && s.queued == 0 && Idle(s.up) && Idle(s.down)
    ensures Reachable(cb, bb, t) && t.handler.Over?
    ensures t.up.out == s.up.out && t.down.out == s.down.out
    ensures t.reported == Some((s.up.total + s.up.n, s.down.total + s.down.n))
  {
    t := UpEnds(cb, bb, s);
    t := HandlerCloses(cb, bb, t);
    t := DownEnds(cb, bb, t);
    ReachStep(cb, bb, t, Receive);
    t := Apply(t, Receive);
    ReachStep(cb, bb, t, Finish);
    t := Apply(t, Finish);
  }

  /** Whatever was buffered and whatever the two sides send, there is a run that delivers and counts all of it. */
  lemma AllCanBeDelivered(cb: seq<byte>, cl: seq<byte>, bb: seq<byte>, bl: seq<byte>) returns (t: Splice)
    ensures Reachable(cb, bb, t) && t.handler.Over?
    ensures t.up.out == cb + cl && t.down.out == bb + bl
    ensures t.reported == Some((|cb| + |cl|, |bb| + |bl|))
  {
    var s := UpDrains(cb, bb);
    if cl != [] { s := UpCarries(cb, bb, s, cl); }
    assert s.up.out == cb + cl;
    s := DownDrains(cb, bb, s);
    if bl != [] { s := DownCarries(cb, bb, s, bl); }
    assert s.down.out == bb + bl;
    t := CloseDown(cb, bb, s);
  }
}
