/** The actor driver of internal/backend/substrate.go, call by call. */
module Substrate {
  import opened Common
  import opened ControlServer

  const READY_POLL_INTERVAL := 200_000_000 // 200 ms
  const READY_DEADLINE := 60 * SECOND
  const UPSTREAM_READY_DEADLINE := 30 * SECOND
  const UPSTREAM_PROBE_INTERVAL := 200_000_000

  datatype Failure =
    Grpc(code: Code) | WrongTemplate | PolicyDiffers | Terminal(state: ActorState) | TimedOut | Cancelled

  const PREFIX := "pw-"

  function ActorId(playwrightId: string): string {
    PREFIX + playwrightId
  }

  predicate AllHonest(calls: seq<Entry>) {
    forall e <- calls :: Honest(e)
  }

  // ---------------------------------------------------------------- get or create

  /** The calls of getOrCreate and its result. */
  predicate GetOrCreateSpec(id: string, template: Template, calls: seq<Entry>, res: Result<Actor, Failure>) {
    && 1 <= |calls| <= 3
    && calls[0].rpc.GetActor? && calls[0].rpc.id == id
    && var first := calls[0].rpc.actor;
    && (|calls| == 1 <==> first != Err(NotFound))
    && (|calls| == 1 ==> res == if first.Ok? then Ok(first.value) else Err(Grpc(first.error)))
    && (|calls| > 1 ==>
        && calls[1].rpc.CreateActor? && calls[1].rpc.id == id && calls[1].rpc.template == template
        && var made := calls[1].rpc.actor;
        && (|calls| == 2 <==> made != Err(AlreadyExists))
        && (|calls| == 2 ==> res == if made.Ok? then Ok(made.value) else Err(Grpc(made.error))))
    && (|calls| == 3 ==>
        && calls[2].rpc.GetActor? && calls[2].rpc.id == id
        && var again := calls[2].rpc.actor;
        && res == if again.Ok? then Ok(again.value) else Err(Grpc(again.error)))
  }

  // ---------------------------------------------------------------- egress policy

  /** The calls of ensureEgressPolicy, when it has an allowlist, and its result. */
  predicate PolicySpec(id: string, wanted: Policy, calls: seq<Entry>, res: Option<Failure>) {
    && 1 <= |calls| <= 3
    && calls[0].rpc.GetPolicy? && calls[0].rpc.id == id
    && var first := calls[0].rpc.policy;
    && (|calls| == 1 <==> first != Err(NotFound))
    && (|calls| == 1 ==> res == Verdict(first, wanted))
    && (|calls| > 1 ==>
        && calls[1].rpc.CreatePolicy? && calls[1].rpc.id == id && calls[1].rpc.wanted == wanted
        && var made := calls[1].rpc.policy;
        && (|calls| == 2 <==> made != Err(AlreadyExists))
        && (|calls| == 2 ==> res == Verdict(made, wanted)))
    && (|calls| == 3 ==>
        && calls[2].rpc.GetPolicy? && calls[2].rpc.id == id && res == Verdict(calls[2].rpc.policy, wanted))
  }

  function Verdict(r: Result<Policy, Code>, wanted: Policy): Option<Failure> {
    match r
    case Err(code) => Some(Grpc(code))
    case Ok(policy) => if policy == wanted then None else Some(PolicyDiffers)
  }

  // ---------------------------------------------------------------- waiting for RUNNING

  function Polls(calls: seq<Entry>): nat {
    if calls == [] then 0 else Polls(calls[..|calls| - 1]) + (if calls[|calls| - 1].rpc.GetActor? then 1 else 0)
  }

  function Resumes(calls: seq<Entry>): nat {
    if calls == [] then 0 else Resumes(calls[..|calls| - 1]) + (if calls[|calls| - 1].rpc.ResumeActor? then 1 else 0)
  }

  /** The actor observed last before the call at index k. */
  function Observed(actor: Actor, calls: seq<Entry>, k: nat): Option<Actor>
    requires k <= |calls|
  {
    if k == 0 then Some(actor)
    else if !calls[k - 1].rpc.GetActor? then Observed(actor, calls, k - 1)
    else if calls[k - 1].rpc.actor.Ok? then Some(calls[k - 1].rpc.actor.value)
    else None
  }

  /** The last call was a resume that ends the wait: any code but the one for an actor that just left SUSPENDED. */
  predicate ResumeFailed(calls: seq<Entry>) {
    && calls != []
    && calls[|calls| - 1].rpc.ResumeActor?
    && calls[|calls| - 1].rpc.code.Some?
    && calls[|calls| - 1].rpc.code.value != FailedPrecondition
  }

  predicate PollFailedWith(calls: seq<Entry>, code: Code) {
    calls != [] && calls[|calls| - 1].rpc.GetActor? && calls[|calls| - 1].rpc.actor == Err(code)
  }

  /** The wait goes on: the actor last seen is neither running nor lost, and was resumed if it is suspended. */
  predicate MayPoll(actor: Actor, calls: seq<Entry>) {
    var last := Observed(actor, calls, |calls|);
    && last.Some?
    && last.value.state !in {Running, Crashed, Deleting}
    && (last.value.state == Suspended ==> Resumes(calls) == 1)
    && !ResumeFailed(calls)
  }

  /** A call that the wait may make after `calls`: polling, or resuming, once, an actor just seen suspended. */
  predicate WaitCallOk(id: string, actor: Actor, calls: seq<Entry>, e: Entry) {
    var last := Observed(actor, calls, |calls|);
    match e.rpc
    case GetActor(x, _) => x == id && MayPoll(actor, calls)
    case ResumeActor(x, _) => x == id && last.Some? && last.value.state == Suspended && Resumes(calls) == 0
    case _ => false
  }

  predicate WaitCallsOk(id: string, actor: Actor, calls: seq<Entry>) {
    forall k :: 0 <= k < |calls| ==> WaitCallOk(id, actor, calls[..k], calls[k])
  }

  lemma CallsSnoc(id: string, actor: Actor, calls: seq<Entry>, e: Entry)
    ensures Polls(calls + [e]) == Polls(calls) + (if e.rpc.GetActor? then 1 else 0)
    ensures Resumes(calls + [e]) == Resumes(calls) + (if e.rpc.ResumeActor? then 1 else 0)
    ensures forall k :: 0 <= k <= |calls| ==> Observed(actor, calls + [e], k) == Observed(actor, calls, k)
    ensures WaitCallsOk(id, actor, calls) && WaitCallOk(id, actor, calls, e) ==> WaitCallsOk(id, actor, calls + [e])
  {
    assert (calls + [e])[..|calls|] == calls;
    assert forall k :: 0 <= k < |calls| ==> (calls + [e])[..k] == calls[..k];
    forall k | 0 <= k <= |calls|
      ensures Observed(actor, calls + [e], k) == Observed(actor, calls, k)
    {
      ObservedPrefix(actor, calls, e, k);
    }
  }

  lemma {:induction false} ObservedPrefix(actor: Actor, calls: seq<Entry>, e: Entry, k: nat)
    requires k <= |calls|
    ensures Observed(actor, calls + [e], k) == Observed(actor, calls, k)
  {
    if k > 0 { ObservedPrefix(actor, calls, e, k - 1); }
  }

  const MAX_POLLS := 301
  const MAX_PROBES := 152

  /** The calls of waitForRunning and its result. */
  predicate WaitSpec(id: string, actor: Actor, calls: seq<Entry>, res: Result<Actor, Failure>) {
    && WaitCallsOk(id, actor, calls)
    && Resumes(calls) <= 1
    && Polls(calls) <= MAX_POLLS
    && var last := Observed(actor, calls, |calls|);
    match res
    case Ok(a) => last == Some(a) && a.state == Running
    case Err(Terminal(state)) => last.Some? && last.value.state == state && state in {Crashed, Deleting}
    case Err(Grpc(code)) =>
      PollFailedWith(calls, code) || (ResumeFailed(calls) && calls[|calls| - 1].rpc.code == Some(code))
    case Err(TimedOut) => MayPoll(actor, calls)
    case Err(Cancelled) => MayPoll(actor, calls)
    case Err(_) => false
  }

  lemma Snoc(trace: seq<Entry>, calls: seq<Entry>, e: Entry)
    requires AllHonest(calls) && Honest(e)
    ensures trace + calls + [e] == trace + (calls + [e])
    ensures AllHonest(calls + [e])
  {
  }

  /** Where the wait stands when it is about to look at `actor`. */
  predicate Waited(id: string, actor0: Actor, calls: seq<Entry>, actor: Actor, resumed: bool) {
    && WaitCallsOk(id, actor0, calls)
    && Resumes(calls) == (if resumed then 1 else 0)
    && Polls(calls) <= MAX_POLLS
    && Observed(actor0, calls, |calls|) == Some(actor)
    && !ResumeFailed(calls)
  }

  lemma WaitedResume(id: string, actor0: Actor, calls: seq<Entry>, actor: Actor, e: Entry)
    requires Waited(id, actor0, calls, actor, false) && actor.state == Suspended && e.rpc.ResumeActor? && e.rpc.id == id
    ensures e.rpc.code in {None, Some(FailedPrecondition)} ==> Waited(id, actor0, calls + [e], actor, true)
    ensures e.rpc.code.Some? && e.rpc.code.value != FailedPrecondition ==>
      WaitSpec(id, actor0, calls + [e], Err(Grpc(e.rpc.code.value)))
    ensures Polls(calls + [e]) == Polls(calls)
  {
    CallsSnoc(id, actor0, calls, e);
  }

  lemma WaitedPoll(id: string, actor0: Actor, calls: seq<Entry>, actor: Actor, resumed: bool, e: Entry)
    requires Waited(id, actor0, calls, actor, resumed) && MayPoll(actor0, calls)
    requires Polls(calls) < MAX_POLLS && e.rpc.GetActor? && e.rpc.id == id
    ensures e.rpc.actor.Ok? ==> Waited(id, actor0, calls + [e], e.rpc.actor.value, resumed)
    ensures e.rpc.actor.Err? ==> WaitSpec(id, actor0, calls + [e], Err(Grpc(e.rpc.actor.error)))
    ensures Polls(calls + [e]) == Polls(calls) + 1
  {
    CallsSnoc(id, actor0, calls, e);
  }

  /** What the wait does once it has looked at `actor`. */
  lemma WaitMayEnd(id: string, actor0: Actor, calls: seq<Entry>, actor: Actor, resumed: bool)
    requires Waited(id, actor0, calls, actor, resumed)
    ensures actor.state == Running ==> WaitSpec(id, actor0, calls, Ok(actor))
    ensures actor.state in {Crashed, Deleting} ==> WaitSpec(id, actor0, calls, Err(Terminal(actor.state)))
    ensures actor.state !in {Running, Crashed, Deleting} && (actor.state == Suspended ==> resumed) ==>
      && MayPoll(actor0, calls)
      && WaitSpec(id, actor0, calls, Err(TimedOut))
      && WaitSpec(id, actor0, calls, Err(Cancelled))
  {
  }

  // ---------------------------------------------------------------- probing

  predicate Accepted(status: Option<int>) {
    status.Some? && 200 <= status.value < 500 && status.value != 421 && status.value != 401 && status.value != 403
  }

  /** The calls of waitUpstreamReady and its result: it stops at the first accepted probe. */
  predicate ProbeSpec(target: string, calls: seq<Entry>, res: Option<Failure>) {
    && 1 <= |calls| <= MAX_PROBES
    && (forall k :: 0 <= k < |calls| ==> calls[k].rpc.Probe? && calls[k].rpc.target == target)
    && (forall k :: 0 <= k < |calls| - 1 ==> !Accepted(calls[k].rpc.status))
    && (res == None <==> Accepted(calls[|calls| - 1].rpc.status))
    && (res.Some? ==> res.value == TimedOut || res.value == Cancelled)
  }

  /** Answers of the application are accepted, errors included; router, authentication and routing errors are not. */
  lemma AcceptedStatuses()
    ensures forall st: int :: st in {200, 204, 302, 400, 404, 405, 499} ==> Accepted(Some(st))
    ensures forall st: int :: st in {100, 199, 401, 403, 421, 500, 502, 503} ==> !Accepted(Some(st))
    ensures !Accepted(None)
  {
  }

  // ---------------------------------------------------------------- the whole of Ensure

  /** The fixed settings of one driver. */
  datatype Config = Config(atespace: string, templateName: string, routerHost: string, routerPort: int,
                           allowedHttpHosts: seq<string>)
  {
    function OwnTemplate(): Template {
      Template(atespace, templateName)
    }

    function OwnPolicy(): Policy {
      [Http(allowedHttpHosts, [80])]
    }

    function Target(id: string): string {
      atespace + "/" + id
    }
  }

  /** The calls of one Ensure, phase by phase, with the result of each phase that was reached. */
  datatype EnsureTrace = EnsureTrace(created: seq<Entry>, actor: Result<Actor, Failure>,
                                     policed: seq<Entry>, policy: Option<Failure>,
                                     waited: seq<Entry>, running: Result<Actor, Failure>,
                                     probed: seq<Entry>, ready: Option<Failure>)
  {
    function Calls(): seq<Entry> {
      created + policed + waited + probed
    }

    predicate IsHonest() {
      AllHonest(created) && AllHonest(policed) && AllHonest(waited) && AllHonest(probed)
    }
  }

  predicate EnsureSpec(c: Config, id: string, t: EnsureTrace, res: Result<Endpoint, Failure>) {
    && GetOrCreateSpec(id, c.OwnTemplate(), t.created, t.actor)
    && if t.actor.Err? then t.policed == [] && t.waited == [] && t.probed == [] && res == Err(t.actor.error)
       else if t.actor.value.template != c.OwnTemplate() then
         t.policed == [] && t.waited == [] && t.probed == [] && res == Err(WrongTemplate)
       else
         && (if c.allowedHttpHosts == [] then t.policed == [] && t.policy == None
             else PolicySpec(id, c.OwnPolicy(), t.policed, t.policy))
         && if t.policy.Some? then t.waited == [] && t.probed == [] && res == Err(t.policy.value)
            else
              && WaitSpec(id, t.actor.value, t.waited, t.running)
              && if t.running.Err? then t.probed == [] && res == Err(t.running.error)
                 else
                   && ProbeSpec(c.Target(id), t.probed, t.ready)
                   && res == if t.ready.Some? then Err(t.ready.value)
                             else Ok(Endpoint(c.routerHost, c.Target(id), c.routerPort, 0))
  }

  /** A call that leaves every actor's template and every policy that exists as it was. */
  predicate Preserves(e: Entry) {
    && (forall x <- e.before.actors :: x in e.after.actors && e.after.actors[x].template == e.before.actors[x].template)
    && (forall x <- e.before.policies :: x in e.after.policies && e.after.policies[x] == e.before.policies[x])
  }

  predicate AddsActor(e: Entry) {
    e.after.actors.Keys != e.before.actors.Keys
  }

  predicate AddsPolicy(e: Entry) {
    e.after.policies.Keys != e.before.policies.Keys
  }

  lemma HonestCallsPreserve(e: Entry)
    requires Honest(e)
    ensures Preserves(e)
    ensures AddsActor(e) ==> e.rpc.CreateActor? && e.after.actors.Keys == e.before.actors.Keys + {e.rpc.id}
                             && e.after.actors[e.rpc.id].template == e.rpc.template
    ensures AddsPolicy(e) ==> e.rpc.CreatePolicy? && e.after.policies == e.before.policies[e.rpc.id := e.rpc.wanted]
  {
    if e.rpc.ResumeActor? && e.after != e.before {
      assert e.after.actors.Keys == e.before.actors.Keys;
    }
  }

  /** The shape of a whole Ensure: only calls for `id`, and only two of them can create something. */
  lemma EnsureCalls(c: Config, id: string, t: EnsureTrace, res: Result<Endpoint, Failure>, k: nat)
    requires EnsureSpec(c, id, t, res) && k < |t.Calls()|
    ensures var rpc := t.Calls()[k].rpc;
      && (rpc.CreateActor? ==> k == 1 && rpc.id == id && rpc.template == c.OwnTemplate())
      && (rpc.CreatePolicy? ==>
            k == |t.created| + 1 && rpc.id == id && rpc.wanted == c.OwnPolicy() && c.allowedHttpHosts != [])
  {
    var a, b, d := |t.created|, |t.policed|, |t.waited|;
    if k < a {
      assert t.Calls()[k] == t.created[k];
    } else if k < a + b {
      assert t.Calls()[k] == t.policed[k - a];
    } else if k < a + b + d {
      assert t.Calls()[k] == t.waited[k - a - b];
      assert WaitCallOk(id, t.actor.value, t.waited[..k - a - b], t.waited[k - a - b]);
    } else {
      assert t.Calls()[k] == t.probed[k - a - b - d];
    }
  }

  lemma CallIsHonest(t: EnsureTrace, k: nat)
    requires t.IsHonest() && k < |t.Calls()|
    ensures Honest(t.Calls()[k])
  {
    var e := t.Calls()[k];
    assert e in t.created || e in t.policed || e in t.waited || e in t.probed;
  }

  /**
   Whatever other clients do between its calls, Ensure never alters the template of an actor or a policy
   that exists, and adds at most one actor and one policy: those of its own id, template and allowlist.
   */
  lemma EnsureTouchesOnlyItsOwn(c: Config, id: string, t: EnsureTrace, res: Result<Endpoint, Failure>)
    requires EnsureSpec(c, id, t, res) && t.IsHonest()
    ensures forall e <- t.Calls() :: Preserves(e)
    ensures var calls := t.Calls(); forall i, j ::
      0 <= i < |calls| && 0 <= j < |calls| && AddsActor(calls[i]) && AddsActor(calls[j]) ==> i == j
    ensures var calls := t.Calls(); forall i, j ::
      0 <= i < |calls| && 0 <= j < |calls| && AddsPolicy(calls[i]) && AddsPolicy(calls[j]) ==> i == j
    ensures forall e <- t.Calls() :: AddsActor(e) ==>
      e.after.actors.Keys == e.before.actors.Keys + {id} && e.after.actors[id].template == c.OwnTemplate()
    ensures forall e <- t.Calls() :: AddsPolicy(e) ==>
      c.allowedHttpHosts != [] && e.after.policies == e.before.policies[id := c.OwnPolicy()]
  {
    var calls := t.Calls();
    forall k | 0 <= k < |calls|
      ensures Preserves(calls[k])
      ensures AddsActor(calls[k]) ==> k == 1 && calls[k].after.actors.Keys == calls[k].before.actors.Keys + {id}
                                      && calls[k].after.actors[id].template == c.OwnTemplate()
      ensures AddsPolicy(calls[k]) ==> k == |t.created| + 1 && c.allowedHttpHosts != []
                                       && calls[k].after.policies == calls[k].before.policies[id := c.OwnPolicy()]
    {
      CallIsHonest(t, k);
      HonestCallsPreserve(calls[k]);
      EnsureCalls(c, id, t, res, k);
    }
  }

  predicate AsksForActor(e: Entry) {
    e.rpc.GetActor? || e.rpc.CreateActor?
  }

  /** The server answered a call about `id` with the actor `a`. */
  predicate Reports(e: Entry, id: string, a: Actor) {
    AsksForActor(e) && e.rpc.id == id && e.rpc.actor == Ok(a)
  }

  lemma {:induction false} ObservedEarlier(actor: Actor, calls: seq<Entry>, n: nat, k: nat)
    requires k <= n <= |calls|
    ensures Observed(actor, calls[..n], k) == Observed(actor, calls, k)
    decreases k
  {
    if k > 0 { ObservedEarlier(actor, calls, n, k - 1); }
  }

  /** A wait that succeeds has made no call, or its last one was answered with the running actor. */
  lemma WaitEndsWithReport(id: string, actor: Actor, calls: seq<Entry>, a: Actor)
    requires WaitSpec(id, actor, calls, Ok(a))
    ensures a.state == Running
    ensures if calls == [] then a == actor else Reports(calls[|calls| - 1], id, a)
  {
    if calls != [] {
      var k := |calls| - 1;
      assert WaitCallOk(id, actor, calls[..k], calls[k]);
      ObservedEarlier(actor, calls, k, k);
    }
  }

  /**
   A successful Ensure was told of an actor with its own template, and found or made exactly its one
   allowlist rule. The last answer about an actor that it got before its first probe was for the actor the
   endpoint names, and said RUNNING; and the last probe of that actor was accepted.
   */
  lemma SuccessMeansReady(c: Config, id: string, t: EnsureTrace, res: Result<Endpoint, Failure>)
    requires EnsureSpec(c, id, t, res) && t.IsHonest() && res.Ok?
    ensures res.value == Endpoint(c.routerHost, c.Target(id), c.routerPort, 0)
    ensures exists e <- t.created :: id in e.after.actors && e.after.actors[id].template == c.OwnTemplate()
    ensures c.allowedHttpHosts != [] ==>
      exists e <- t.policed :: id in e.after.policies && e.after.policies[id] == c.OwnPolicy()
    ensures t.running.Ok? && t.running.value.state == Running
    ensures var told := t.created + t.waited; told != [] && Reports(told[|told| - 1], id, t.running.value)
    ensures forall e <- t.policed + t.probed :: !AsksForActor(e)
    ensures t.probed != [] && t.probed[|t.probed| - 1].rpc.Probe?
         && t.probed[|t.probed| - 1].rpc.target == c.Target(id)
         && Accepted(t.probed[|t.probed| - 1].rpc.status)
  {
    CreatedHere(c, id, t.created, t.actor);
    if c.allowedHttpHosts != [] { PolicedHere(c, id, t.policed, t.policy); }
    WaitEndsWithReport(id, t.actor.value, t.waited, t.running.value);
    OnlyTwoPhasesAsk(c, id, t, res);
  }

  lemma OnlyTwoPhasesAsk(c: Config, id: string, t: EnsureTrace, res: Result<Endpoint, Failure>)
    requires EnsureSpec(c, id, t, res) && res.Ok?
    ensures forall e <- t.policed + t.probed :: !AsksForActor(e)
  {
    assert forall e <- t.policed :: e.rpc.GetPolicy? || e.rpc.CreatePolicy?;
  }

  /** The last answer of getOrCreate was true when it was given. */
  lemma CreatedHere(c: Config, id: string, calls: seq<Entry>, res: Result<Actor, Failure>)
    requires GetOrCreateSpec(id, c.OwnTemplate(), calls, res) && AllHonest(calls)
    requires res.Ok? && res.value.template == c.OwnTemplate()
    ensures var e := calls[|calls| - 1];
      e in calls && id in e.after.actors && e.after.actors[id].template == c.OwnTemplate()
  {
    assert calls[|calls| - 1] in calls;
  }

  lemma PolicedHere(c: Config, id: string, calls: seq<Entry>, res: Option<Failure>)
    requires PolicySpec(id, c.OwnPolicy(), calls, res) && AllHonest(calls) && res.None?
    ensures var e := calls[|calls| - 1];
      e in calls && id in e.after.policies && e.after.policies[id] == c.OwnPolicy()
  {
    assert calls[|calls| - 1] in calls;
  }

  /** Different playwright-ids are routed to different actors. */
  lemma TargetIsInjective(c: Config, x: string, y: string)
    requires c.Target(ActorId(x)) == c.Target(ActorId(y))
    ensures x == y
  {
    var n := |c.atespace| + 4;
    assert c.Target(ActorId(x))[n..] == x && c.Target(ActorId(y))[n..] == y;
  }

  /** The calls of an unfinished Ensure, appended to an earlier trace. */
  lemma TraceGrows(before: seq<Entry>, t: EnsureTrace)
    ensures before + t.Calls() == before + t.created + t.policed + t.waited + t.probed
    ensures t.probed == [] ==> before + t.Calls() == before + t.created + t.policed + t.waited
    ensures t.waited == t.probed == [] ==> before + t.Calls() == before + t.created + t.policed
    ensures t.policed == t.waited == t.probed == [] ==> before + t.Calls() == before + t.created
  {
  }

  // ---------------------------------------------------------------- the driver

  /** A request's context, which may end at any time; `answers` is what it answered at each select. */
  class Context {
    var answers: seq<bool>

    constructor ()
      ensures answers == []
    {
      answers := [];
    }

    method Done() returns (done: bool)
      modifies this`answers
      ensures answers == old(answers) + [done]
    {
      done := *;
      answers := answers + [done];
    }
  }

  /** The context was asked before each of `n` sleeps that happened, and then once more if it ended the wait. */
  predicate Selected(before: seq<bool>, after: seq<bool>, n: nat, cancelled: bool) {
    after == before + seq(n, _ => false) + (if cancelled then [true] else [])
  }

  lemma SelectedOnce(before: seq<bool>, after: seq<bool>, n: nat)
    requires Selected(before, after, n, false)
    ensures Selected(before, after + [false], n + 1, false)
    ensures Selected(before, after + [true], n, true)
  {
    assert seq(n + 1, _ => false) == seq(n, _ => false) + [false];
  }

  lemma SelectedTwice(before: seq<bool>, middle: seq<bool>, after: seq<bool>, m: nat, n: nat, cancelled: bool)
    requires Selected(before, middle, m, false) && Selected(middle, after, n, cancelled)
    ensures Selected(before, after, m + n, cancelled)
  {
    assert seq(m + n, _ => false) == seq(m, _ => false) + seq(n, _ => false);
  }

  /** How often one Ensure slept: before each poll, and between two probes. */
  function Sleeps(waited: seq<Entry>, probed: seq<Entry>): nat {
    Polls(waited) + if probed == [] then 0 else |probed| - 1
  }

  lemma SelectedNever(before: seq<bool>)
    ensures Selected(before, before, 0, false)
  {
  }

  class Driver {
    const control: Control
    const config: Config

    constructor (control: Control, config: Config)
      ensures this.control == control && this.config == config
    {
      this.control, this.config := control, config;
    }

    method GetOrCreate(id: string) returns (res: Result<Actor, Failure>, ghost calls: seq<Entry>)
      modifies control
      ensures control.now >= old(control.now) && control.trace == old(control.trace) + calls
      ensures AllHonest(calls)
      ensures GetOrCreateSpec(id, config.OwnTemplate(), calls, res)
      ensures |calls| > 1 ==> calls[1].rpc.template == Template(config.atespace, config.templateName)
    {
      var r, e0 := control.DoGetActor(id);
      calls := [e0];
      if r.Ok? {
        res := Ok(r.value);
        return;
      }
      if r.error != NotFound {
        res := Err(Grpc(r.error));
        return;
      }
      var made, e1 := control.DoCreateActor(id, config.OwnTemplate());
      calls := calls + [e1];
      if made.Ok? {
        res := Ok(made.value);
        return;
      }
      if made.error == AlreadyExists {
        var again, e2 := control.DoGetActor(id);
        calls := calls + [e2];
        res := if again.Ok? then Ok(again.value) else Err(Grpc(again.error));
        return;
      }
      res := Err(Grpc(made.error));
    }

    method EnsureEgressPolicy(id: string) returns (res: Option<Failure>, ghost calls: seq<Entry>)
      modifies control
      ensures control.now >= old(control.now) && control.trace == old(control.trace) + calls
      ensures AllHonest(calls)
      ensures config.allowedHttpHosts == [] ==> calls == [] && res == None
      ensures config.allowedHttpHosts != [] ==> PolicySpec(id, config.OwnPolicy(), calls, res)
      ensures forall e <- calls :: e.rpc.CreatePolicy? ==> e.rpc.wanted == [Http(config.allowedHttpHosts, [80])]
      ensures calls != [] ==>
        match calls[|calls| - 1].rpc.policy
        case Ok(policy) => res == if policy == [Http(config.allowedHttpHosts, [80])] then None else Some(PolicyDiffers)
        case Err(code) => res == Some(Grpc(code))
    {
      calls := [];
      if |config.allowedHttpHosts| == 0 {
        res := None;
        return;
      }
      var rule := Http(config.allowedHttpHosts, [80]);
      var policy, e0 := control.DoGetPolicy(id);
      calls := [e0];
      if policy == Err(NotFound) {
        ghost var e1, e2;
        policy, e1 := control.DoCreatePolicy(id, [rule]);
        calls := calls + [e1];
        if policy == Err(AlreadyExists) {
          policy, e2 := control.DoGetPolicy(id);
          calls := calls + [e2];
        }
      }
      if policy.Err? {
        res := Some(Grpc(policy.error));
        return;
      }
      if |policy.value| != 1 || policy.value[0] != rule {
        res := Some(PolicyDiffers);
        return;
      }
      res := None;
    }

    /** The wait's one resume; a failure that only says that the actor has just left SUSPENDED is none. */
    method TryResume(id: string, ghost actor0: Actor, ghost actor: Actor,
                     ghost before: seq<Entry>, ghost calls: seq<Entry>)
      returns (failed: Option<Code>, ghost more: seq<Entry>)
      requires control.trace == before + calls && AllHonest(calls)
      requires Waited(id, actor0, calls, actor, false) && actor.state == Suspended
      modifies control
      ensures control.now >= old(control.now) && control.trace == before + more && AllHonest(more)
      ensures Polls(more) == Polls(calls)
      ensures match failed
        case None => Waited(id, actor0, more, actor, true)
        case Some(code) => WaitSpec(id, actor0, more, Err(Grpc(code)))
    {
      var code, e := control.DoResume(id);
      WaitedResume(id, actor0, calls, actor, e);
      Snoc(before, calls, e);
      more := calls + [e];
      failed := if code == Some(FailedPrecondition) then None else code;
    }

    /** The wait's sleep and the poll after it. */
    method PollAgain(id: string, ghost actor0: Actor, ghost actor: Actor, ghost resumed: bool,
                     ghost before: seq<Entry>, ghost calls: seq<Entry>)
      returns (r: Result<Actor, Code>, ghost more: seq<Entry>)
      requires control.trace == before + calls && AllHonest(calls)
      requires Waited(id, actor0, calls, actor, resumed) && MayPoll(actor0, calls) && Polls(calls) < MAX_POLLS
      modifies control
      ensures control.now >= old(control.now) + READY_POLL_INTERVAL
      ensures control.trace == before + more && AllHonest(more) && Polls(more) == Polls(calls) + 1
      ensures match r
        case Ok(a) => Waited(id, actor0, more, a, resumed)
        case Err(code) => WaitSpec(id, actor0, more, Err(Grpc(code)))
    {
      control.Sleep(READY_POLL_INTERVAL);
      ghost var e;
      r, e := control.DoGetActor(id);
      WaitedPoll(id, actor0, calls, actor, resumed, e);
      Snoc(before, calls, e);
      more := calls + [e];
    }

    /**
     waitForRunning: polls until RUNNING, resuming once if it sees SUSPENDED, and gives up on a terminal
     state, on an error, or when the deadline has passed.
     */
    method WaitForRunning(ctx: Context, id: string, actor0: Actor)
      returns (res: Result<Actor, Failure>, ghost calls: seq<Entry>)
      modifies control, ctx
      ensures control.now >= old(control.now) && control.trace == old(control.trace) + calls
      ensures AllHonest(calls)
      ensures WaitSpec(id, actor0, calls, res)
      ensures res == Err(TimedOut) ==> control.now > old(control.now) + 60_000_000_000
      ensures Selected(old(ctx.answers), ctx.answers, Polls(calls), res == Err(Cancelled))
    {
      ghost var start := control.now;
      calls := [];
      var deadline := control.now + READY_DEADLINE;
      var actor, resumed := actor0, false;
      ghost var polls := 0;
      while true
        invariant control.now >= start + polls * READY_POLL_INTERVAL && polls == Polls(calls)
        invariant control.trace == old(control.trace) + calls
        invariant AllHonest(calls)
        invariant Waited(id, actor0, calls, actor, resumed)
        invariant Selected(old(ctx.answers), ctx.answers, polls, false)
        decreases if control.now <= deadline then deadline - control.now + 1 else 0
      {
        WaitMayEnd(id, actor0, calls, actor, resumed);
        match actor.state {
          case Running =>
            res := Ok(actor);
            return;
          case Suspended =>
            if !resumed {
              var failed;
              failed, calls := TryResume(id, actor0, actor, old(control.trace), calls);
              if failed.Some? {
                res := Err(Grpc(failed.value));
                return;
              }
              resumed := true;
              WaitMayEnd(id, actor0, calls, actor, resumed);
            }
          case Crashed =>
            res := Err(Terminal(Crashed));
            return;
          case Deleting =>
            res := Err(Terminal(Deleting));
            return;
          case _ =>
        }
        if control.now > deadline {
          res := Err(TimedOut);
          return;
        }
        SelectedOnce(old(ctx.answers), ctx.answers, polls);
        var done := ctx.Done();
        if done {
          res := Err(Cancelled);
          return;
        }
        var r;
        r, calls := PollAgain(id, actor0, actor, resumed, old(control.trace), calls);
        polls := polls + 1;
        if r.Err? {
          res := Err(Grpc(r.error));
          return;
        }
        actor := r.value;
      }
    }

    /** waitUpstreamReady: probes until an answer is acceptable or the deadline has passed. */
    method WaitUpstreamReady(ctx: Context, id: string) returns (res: Option<Failure>, ghost calls: seq<Entry>)
      modifies control, ctx
      ensures control.now >= old(control.now) && control.trace == old(control.trace) + calls
      ensures AllHonest(calls)
      ensures ProbeSpec(config.Target(id), calls, res)
      ensures forall k :: 0 <= k < |calls| ==>
        calls[k].rpc.target == config.atespace + "/" + id
        && (k == |calls| - 1 && res == None <==>
              var st := calls[k].rpc.status; st.Some? && 200 <= st.value < 500 && st.value !in {401, 403, 421})
      ensures res == Some(TimedOut) ==> control.now > old(control.now) + 30_000_000_000
      ensures Selected(old(ctx.answers), ctx.answers, |calls| - 1, res == Some(Cancelled))
    {
      ghost var start := control.now;
      calls := [];
      var deadline := control.now + UPSTREAM_READY_DEADLINE;
      var attempt := 0;
      while true
        invariant control.now >= start + attempt * UPSTREAM_PROBE_INTERVAL
        invariant control.trace == old(control.trace) + calls && |calls| == attempt
        invariant attempt < MAX_PROBES
        invariant AllHonest(calls)
        invariant Selected(old(ctx.answers), ctx.answers, attempt, false)
        invariant forall e <- calls :: e.rpc.Probe? && e.rpc.target == config.Target(id) && !Accepted(e.rpc.status)
        decreases if control.now <= deadline then deadline - control.now + 1 else 0
      {
        attempt := attempt + 1;
        var status, e := control.DoProbe(config.Target(id));
        Snoc(old(control.trace), calls, e);
        calls := calls + [e];
        if status.Some? && status.value >= 200 && status.value < 500
          && status.value != 421 && status.value != 401 && status.value != 403 {
          res := None;
          return;
        }
        if control.now > deadline {
          res := Some(TimedOut);
          return;
        }
        SelectedOnce(old(ctx.answers), ctx.answers, attempt - 1);
        var done := ctx.Done();
        if done {
          res := Some(Cancelled);
          return;
        }
        control.Sleep(UPSTREAM_PROBE_INTERVAL);
      }
    }

    /** The two waits of Ensure: for RUNNING, and then for the upstream. */
    method DriveToReady(ctx: Context, id: string, actor: Actor)
      returns (failed: Option<Failure>, ghost waited: seq<Entry>, ghost running: Result<Actor, Failure>,
               ghost probed: seq<Entry>, ghost ready: Option<Failure>)
      modifies control, ctx
      ensures control.trace == old(control.trace) + waited + probed && AllHonest(waited) && AllHonest(probed)
      ensures WaitSpec(id, actor, waited, running)
      ensures if running.Err? then probed == [] && failed == Some(running.error)
              else ProbeSpec(config.Target(id), probed, ready) && failed == ready
      ensures Selected(old(ctx.answers), ctx.answers, Sleeps(waited, probed), failed == Some(Cancelled))
    {
      ghost var before := ctx.answers;
      var up;
      up, waited := WaitForRunning(ctx, id, actor);
      running, probed, ready := up, [], None;
      if up.Err? {
        failed := Some(up.error);
        return;
      }
      ghost var middle := ctx.answers;
      failed, probed := WaitUpstreamReady(ctx, id);
      ready := failed;
      SelectedTwice(before, middle, ctx.answers, Polls(waited), |probed| - 1, ready == Some(Cancelled));
    }

    /** Ensure, phase after phase; a phase that fails ends it. */
    method Ensure(ctx: Context, playwrightId: string) returns (res: Result<Endpoint, Failure>, ghost t: EnsureTrace)
      modifies control, ctx
      ensures control.trace == old(control.trace) + t.Calls() && t.IsHonest()
      ensures EnsureSpec(config, "pw-" + playwrightId, t, res)
      ensures res.Ok? ==>
        res.value == Endpoint(config.routerHost, config.atespace + "/pw-" + playwrightId, config.routerPort, 0)
      ensures t.actor.Ok? ==>
        (t.actor.value.template != Template(config.atespace, config.templateName) <==> res == Err(WrongTemplate))
      ensures Selected(old(ctx.answers), ctx.answers, Sleeps(t.waited, t.probed), res == Err(Cancelled))
    {
      var id := ActorId(playwrightId);
      ghost var before := control.trace;
      SelectedNever(ctx.answers);
      var actor, created := GetOrCreate(id);
      t := EnsureTrace(created, actor, [], None, [], Err(Cancelled), [], None);
      TraceGrows(before, t);
      if actor.Err? {
        res := Err(actor.error);
        return;
      }
      if actor.value.template != config.OwnTemplate() {
        res := Err(WrongTemplate);
        return;
      }
      var policy, policed := EnsureEgressPolicy(id);
      t := t.(policed := policed, policy := policy);
      TraceGrows(before, t);
      if policy.Some? {
        res := Err(policy.value);
        return;
      }
      var failed;
      ghost var waited, running, probed, ready;
      failed, waited, running, probed, ready := DriveToReady(ctx, id, actor.value);
      t := t.(waited := waited, running := running, probed := probed, ready := ready);
      TraceGrows(before, t);
      if failed.Some? {
        res := Err(failed.value);
        return;
      }
      res := Ok(Endpoint(config.routerHost, config.Target(id), config.routerPort, 0));
    }
  }
}
