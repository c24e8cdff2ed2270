/**
 What a successful Ensure of internal/backend/substrate.go says about the store at its accepted probe. It
 checks the template and the policy once each, and other clients may change both afterwards.
 */
module Served {
  import opened Common
  import opened ControlServer
  import opened Substrate

  // ---------------------------------------------------------------- changes between calls

  type View<V> = Store -> V

  function TemplateOf(id: string): View<Option<Template>> {
    (s: Store) => if id in s.actors then Some(s.actors[id].template) else None
  }

  function PolicyOf(id: string): View<Option<Policy>> {
    (s: Store) => if id in s.policies then Some(s.policies[id]) else None
  }

  /** The store as the call before the one at index k left it. */
  function LeftBefore(start: Store, calls: seq<Entry>, k: nat): Store
    requires k < |calls|
  {
    if k == 0 then start else calls[k - 1].after
  }

  /** Other clients changed what `view` shows between the call at index k and the one before it. */
  predicate ChangedBefore<V(==)>(view: View<V>, start: Store, calls: seq<Entry>, k: nat)
    requires k < |calls|
  {
    view(calls[k].before) != view(LeftBefore(start, calls, k))
  }

  predicate IsLastChange<V(==)>(view: View<V>, start: Store, calls: seq<Entry>, k: nat) {
    k < |calls| && ChangedBefore(view, start, calls, k)
    && forall j :: k < j < |calls| ==> !ChangedBefore(view, start, calls, j)
  }

  /** Other clients changed nothing that `view` shows, or what they left in the end is `want`. */
  predicate LeftAs<V(==)>(view: View<V>, start: Store, calls: seq<Entry>, want: V) {
    forall k :: 0 <= k < |calls| && IsLastChange(view, start, calls, k) ==> view(calls[k].before) == want
  }

  predicate Undisturbed<V(==)>(view: View<V>, start: Store, calls: seq<Entry>) {
    forall k :: 0 <= k < |calls| ==> !ChangedBefore(view, start, calls, k)
  }

  /** None of the calls changes what `view` shows. */
  predicate Keeps<V(==)>(view: View<V>, calls: seq<Entry>) {
    forall e <- calls :: view(e.after) == view(e.before)
  }

  /** Without changes from index k on, the view stays. */
  lemma {:induction false} StaysFrom<V>(view: View<V>, start: Store, calls: seq<Entry>, k: nat, n: nat)
    requires k <= n < |calls| && Keeps(view, calls)
    requires forall j :: k < j <= n ==> !ChangedBefore(view, start, calls, j)
    ensures view(calls[n].before) == view(calls[k].before)
    decreases n
  {
    if k < n {
      StaysFrom(view, start, calls, k, n - 1);
      assert !ChangedBefore(view, start, calls, n) && calls[n - 1] in calls;
    }
  }

  lemma {:induction false} LastChange<V>(view: View<V>, start: Store, calls: seq<Entry>, n: nat) returns (k: nat)
    requires n < |calls| && !(forall j :: 0 <= j <= n ==> !ChangedBefore(view, start, calls, j))
    requires forall j :: n < j < |calls| ==> !ChangedBefore(view, start, calls, j)
    ensures k <= n && IsLastChange(view, start, calls, k)
    decreases n
  {
    if ChangedBefore(view, start, calls, n) {
      k := n;
    } else {
      k := LastChange(view, start, calls, n - 1);
    }
  }

  /** What the last call finds is `want` exactly if the last change by others, if there was any, left it so. */
  lemma LastChangeDecides<V>(view: View<V>, start: Store, calls: seq<Entry>, want: V)
    requires calls != [] && Keeps(view, calls) && view(start) == want
    ensures view(calls[|calls| - 1].before) == want <==> LeftAs(view, start, calls, want)
    ensures Undisturbed(view, start, calls) ==> view(calls[|calls| - 1].before) == want
  {
    var n := |calls| - 1;
    if Undisturbed(view, start, calls) {
      assert !ChangedBefore(view, start, calls, 0);
      StaysFrom(view, start, calls, 0, n);
      assert forall k :: 0 <= k < |calls| ==> !IsLastChange(view, start, calls, k);
    } else {
      var k := LastChange(view, start, calls, n);
      StaysFrom(view, start, calls, k, n);
      assert forall j :: 0 <= j < |calls| && IsLastChange(view, start, calls, j) ==> j == k;
    }
  }

  // ---------------------------------------------------------------- the template and the policy at the accepted probe

  /** The store at the last probe. */
  function AtLastProbe(t: EnsureTrace): Store
    requires t.probed != []
  {
    t.probed[|t.probed| - 1].before
  }

  function AfterCreated(t: EnsureTrace): Store
    requires t.created != []
  {
    t.created[|t.created| - 1].after
  }

  function AfterPoliced(t: EnsureTrace): Store
    requires t.policed != []
  {
    t.policed[|t.policed| - 1].after
  }

  lemma WaitAndProbesOnlyLook(c: Config, id: string, t: EnsureTrace, res: Result<Endpoint, Failure>)
    requires EnsureSpec(c, id, t, res) && res.Ok?
    ensures forall e <- t.waited :: e.rpc.GetActor? || e.rpc.ResumeActor?
    ensures forall e <- t.probed :: e.rpc.Probe?
    ensures forall e <- t.policed :: e.rpc.GetPolicy? || e.rpc.CreatePolicy?
  {
    forall e | e in t.waited ensures e.rpc.GetActor? || e.rpc.ResumeActor? {
      var k :| 0 <= k < |t.waited| && t.waited[k] == e;
      assert WaitCallOk(id, t.actor.value, t.waited[..k], t.waited[k]);
    }
  }

  lemma CallKeepsTemplates(id: string, e: Entry)
    requires Honest(e) && !e.rpc.CreateActor?
    ensures TemplateOf(id)(e.after) == TemplateOf(id)(e.before)
  {
  }

  lemma LaterCallsKeepTemplates(c: Config, id: string, t: EnsureTrace, res: Result<Endpoint, Failure>)
    requires EnsureSpec(c, id, t, res) && t.IsHonest() && res.Ok?
    ensures Keeps(TemplateOf(id), t.policed + t.waited + t.probed)
  {
    WaitAndProbesOnlyLook(c, id, t, res);
    forall e | e in t.policed + t.waited + t.probed ensures TemplateOf(id)(e.after) == TemplateOf(id)(e.before) {
      CallKeepsTemplates(id, e);
    }
  }

  lemma CallKeepsPolicies(id: string, e: Entry)
    requires Honest(e) && !e.rpc.CreatePolicy?
    ensures PolicyOf(id)(e.after) == PolicyOf(id)(e.before)
  {
  }

  /**
   A successful Ensure has its own template in the store at the accepted probe if and only if other clients
   did not change the actor's template since the last call of getOrCreate, or the last change put it back.
   */
  lemma TemplateServedExactly(c: Config, id: string, t: EnsureTrace, res: Result<Endpoint, Failure>)
    requires EnsureSpec(c, id, t, res) && t.IsHonest() && res.Ok?
    ensures t.created != [] && t.probed != []
    ensures var view, start, later := TemplateOf(id), AfterCreated(t), t.policed + t.waited + t.probed;
      && (view(AtLastProbe(t)) == Some(c.OwnTemplate()) <==> LeftAs(view, start, later, Some(c.OwnTemplate())))
      && (Undisturbed(view, start, later) ==> view(AtLastProbe(t)) == Some(c.OwnTemplate()))
  {
    var later := t.policed + t.waited + t.probed;
    CreatedHere(c, id, t.created, t.actor);
    LaterCallsKeepTemplates(c, id, t, res);
    assert later[|later| - 1] == t.probed[|t.probed| - 1];
    LastChangeDecides(TemplateOf(id), AfterCreated(t), later, Some(c.OwnTemplate()));
  }

  /** The same of the egress policy, since the last call of ensureEgressPolicy, when there is an allowlist. */
  lemma PolicyServedExactly(c: Config, id: string, t: EnsureTrace, res: Result<Endpoint, Failure>)
    requires EnsureSpec(c, id, t, res) && t.IsHonest() && res.Ok? && c.allowedHttpHosts != []
    ensures t.policed != [] && t.probed != []
    ensures var view, start, later := PolicyOf(id), AfterPoliced(t), t.waited + t.probed;
      && (view(AtLastProbe(t)) == Some(c.OwnPolicy()) <==> LeftAs(view, start, later, Some(c.OwnPolicy())))
      && (Undisturbed(view, start, later) ==> view(AtLastProbe(t)) == Some(c.OwnPolicy()))
  {
    var later := t.waited + t.probed;
    PolicedHere(c, id, t.policed, t.policy);
    WaitAndProbesOnlyLook(c, id, t, res);
    forall e | e in later ensures PolicyOf(id)(e.after) == PolicyOf(id)(e.before) {
      CallKeepsPolicies(id, e);
    }
    assert later[|later| - 1] == t.probed[|t.probed| - 1];
    LastChangeDecides(PolicyOf(id), AfterPoliced(t), later, Some(c.OwnPolicy()));
  }

  // ---------------------------------------------------------------- no answer protects

  lemma FirstWaitCall(id: string, actor: Actor, calls: seq<Entry>)
    requires WaitCallsOk(id, actor, calls) && calls != []
    ensures WaitCallOk(id, actor, [], calls[0])
  {
    assert calls[..0] == [];
  }

  /** A wait that ends with a poll answered by a running actor, whoever put it there. */
  lemma WaitEndsWithPoll(id: string, actor0: Actor, calls: seq<Entry>, actor: Actor, resumed: bool, e: Entry)
    requires Waited(id, actor0, calls, actor, resumed) && MayPoll(actor0, calls) && Polls(calls) == 0
    requires e.rpc.GetActor? && e.rpc.id == id && e.rpc.actor.Ok? && e.rpc.actor.value.state == Running
    ensures WaitSpec(id, actor0, calls + [e], Ok(e.rpc.actor.value))
  {
    WaitedPoll(id, actor0, calls, actor, resumed, e);
    WaitMayEnd(id, actor0, calls + [e], e.rpc.actor.value, resumed);
  }

  lemma WaitStarts(id: string, actor: Actor)
    ensures Waited(id, actor, [], actor, false) && Polls([]) == 0 && AllHonest([])
  {
  }

  /** An actor that is suspended is resumed before the first poll. */
  lemma WaitBeforePoll(id: string, actor: Actor, store: Store) returns (calls: seq<Entry>)
    requires actor.state !in {Running, Crashed, Deleting}
    ensures Waited(id, actor, calls, actor, actor.state == Suspended) && Polls(calls) == 0 && AllHonest(calls)
    ensures MayPoll(actor, calls)
  {
    WaitStarts(id, actor);
    calls := [];
    if actor.state == Suspended {
      var resume := Entry(ResumeActor(id, None), store, store);
      WaitedResume(id, actor, calls, actor, resume);
      Snoc([], calls, resume);
      calls := calls + [resume];
    }
    WaitMayEnd(id, actor, calls, actor, actor.state == Suspended);
  }

  /** A wait whose first poll, if it makes one, meets an actor that another client has put in the place of `actor`. */
  lemma ReplacedWait(id: string, actor: Actor, other: Actor, store: Store) returns (calls: seq<Entry>)
    requires actor.state !in {Crashed, Deleting} && other.state == Running
    requires id in store.actors && store.actors[id] == other
    ensures WaitSpec(id, actor, calls, Ok(if actor.state == Running then actor else other)) && AllHonest(calls)
  {
    if actor.state == Running {
      WaitStarts(id, actor);
      WaitMayEnd(id, actor, [], actor, false);
      calls := [];
    } else {
      var poll := Entry(GetActor(id, Ok(other)), store, store);
      calls := WaitBeforePoll(id, actor, store);
      WaitEndsWithPoll(id, actor, calls, actor, actor.state == Suspended, poll);
      Snoc([], calls, poll);
      calls := calls + [poll];
    }
  }

  /** The calls of ensureEgressPolicy when it finds the own policy, if it has one at all. */
  lemma FoundPolicy(c: Config, id: string, store: Store) returns (calls: seq<Entry>)
    requires id in store.policies && store.policies[id] == c.OwnPolicy()
    ensures if c.allowedHttpHosts == [] then calls == [] else PolicySpec(id, c.OwnPolicy(), calls, None)
    ensures AllHonest(calls)
  {
    calls := if c.allowedHttpHosts == [] then [] else [Entry(GetPolicy(id, Ok(c.OwnPolicy())), store, store)];
  }

  lemma AcceptedProbe(target: string, store: Store) returns (calls: seq<Entry>)
    ensures ProbeSpec(target, calls, None) && AllHonest(calls)
    ensures forall e <- calls :: e.before == store
  {
    calls := [Entry(Probe(target, Some(200)), store, store)];
  }

  /**
   Another client replaces the actor right after the last call of getOrCreate, whatever that answered, and the
   policy after the last call of ensureEgressPolicy. Ensure compares neither again and succeeds.
   */
  lemma ReplacedActor(c: Config, id: string, created: seq<Entry>, actor: Actor)
    returns (t: EnsureTrace, res: Result<Endpoint, Failure>)
    requires GetOrCreateSpec(id, c.OwnTemplate(), created, Ok(actor)) && AllHonest(created)
    requires actor.template == c.OwnTemplate() && actor.state !in {Crashed, Deleting}
    ensures EnsureSpec(c, id, t, res) && t.IsHonest() && t.created == created && t.actor == Ok(actor) && res.Ok?
    ensures actor.state != Running ==> t.running.Ok? && t.running.value.template != c.OwnTemplate()
    ensures t.probed != [] && forall e <- t.probed :: TemplateOf(id)(e.before) != Some(c.OwnTemplate())
    ensures forall e <- t.probed :: PolicyOf(id)(e.before) != Some(c.OwnPolicy())
  {
    var other := Actor(id, Template(c.atespace, c.templateName + "2"), Running);
    assert other.template != c.OwnTemplate() by {
      assert |other.template.name| == |c.templateName| + 1;
    }
    var store := Store(map[id := other], map[id := c.OwnPolicy()]);
    var last := Store(map[id := other], map[]);
    var waited := ReplacedWait(id, actor, other, store);
    var running := if actor.state == Running then actor else other;
    var policed := FoundPolicy(c, id, store);
    var probed := AcceptedProbe(c.Target(id), last);
    t := EnsureTrace(created, Ok(actor), policed, None, waited, Ok(running), probed, None);
    res := Ok(Endpoint(c.routerHost, c.Target(id), c.routerPort, 0));
  }

  /** After `created` has answered with `actor`, success means that the accepted probe reached the own template. */
  ghost predicate TemplateIsKept(c: Config, id: string, created: seq<Entry>, actor: Actor) {
    forall t, res ::
      EnsureSpec(c, id, t, res) && t.IsHonest() && t.created == created && t.actor == Ok(actor) && res.Ok? ==>
        t.probed != [] && TemplateOf(id)(AtLastProbe(t)) == Some(c.OwnTemplate())
  }

  /**
   No first answer protects against other clients: success guarantees the own template at the accepted probe
   only after an answer with which Ensure cannot succeed at all.
   */
  lemma NoAnswerKeepsTemplate(c: Config, id: string, created: seq<Entry>, actor: Actor)
    requires GetOrCreateSpec(id, c.OwnTemplate(), created, Ok(actor)) && AllHonest(created)
    requires actor.template == c.OwnTemplate()
    ensures TemplateIsKept(c, id, created, actor) <==> actor.state in {Crashed, Deleting}
    ensures actor.state in {Crashed, Deleting} ==>
      forall t, res :: EnsureSpec(c, id, t, res) && t.created == created && t.actor == Ok(actor) ==> res.Err?
  {
    if actor.state in {Crashed, Deleting} {
      forall t, res | EnsureSpec(c, id, t, res) && t.created == created && t.actor == Ok(actor) ensures res.Err? {
        if t.waited != [] && res.Ok? { FirstWaitCall(id, actor, t.waited); }
      }
    } else {
      var t, res := ReplacedActor(c, id, created, actor);
      assert t.probed[|t.probed| - 1] in t.probed;
    }
  }
}
