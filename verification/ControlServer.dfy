/**
 The substrate control plane as internal/backend/substrate.go meets it: a server whose state other
 clients may change before any of our calls, over a network that may lose a request or its reply.
 */
module ControlServer {
  import opened Common

  datatype ActorState = Unspecified | Resuming | Running | Suspending | Suspended | Crashed | Deleting | Reverting

  datatype Template = Template(atespace: string, name: string)

  datatype Actor = Actor(name: string, template: Template, state: ActorState)

  /** An egress rule: HTTP to host names on ports, or anything else. */
  datatype Rule = Http(hostnames: seq<string>, ports: seq<int>) | OtherRule(text: string)

  type Policy = seq<Rule>

  datatype Code = NotFound | AlreadyExists | FailedPrecondition | OtherCode(n: nat)

  /** What the server stores for one atespace: actors and their default policies, by actor name. */
  datatype Store = Store(actors: map<string, Actor>, policies: map<string, Policy>)

  /** One call with its answer. */
  datatype Rpc =
    | GetActor(id: string, actor: Result<Actor, Code>)
    | CreateActor(id: string, template: Template, actor: Result<Actor, Code>)
    | ResumeActor(id: string, code: Option<Code>)
    | GetPolicy(id: string, policy: Result<Policy, Code>)
    | CreatePolicy(id: string, wanted: Policy, policy: Result<Policy, Code>)
    | Probe(target: string, status: Option<int>)

  /** A call together with the store just before and just after its effect. */
  datatype Entry = Entry(rpc: Rpc, before: Store, after: Store)

  /** The service contract of each call. Any call may also fail with some other code, with or without its effect. */
  predicate Honest(e: Entry) {
    match e.rpc
    case GetActor(id, r) =>
      && e.after == e.before
      && (r.Ok? ==> id in e.before.actors && e.before.actors[id] == r.value)
      && (r == Err(NotFound) ==> id !in e.before.actors)
    case CreateActor(id, template, r) =>
      && e.after.policies == e.before.policies
      && (e.after == e.before
          || (id !in e.before.actors && id in e.after.actors && e.after.actors[id].template == template
              && e.after.actors == e.before.actors[id := e.after.actors[id]]))
      && (r.Ok? ==> e.after != e.before && id in e.after.actors && e.after.actors[id] == r.value)
      && (r == Err(AlreadyExists) ==> id in e.before.actors)
    case ResumeActor(id, _) =>
      && e.after.policies == e.before.policies
      && (e.after == e.before
          || (id in e.before.actors && e.before.actors[id].state == Suspended
              && e.after.actors == e.before.actors[id := e.before.actors[id].(state := Resuming)]))
    case GetPolicy(id, r) =>
      && e.after == e.before
      && (r.Ok? ==> id in e.before.policies && e.before.policies[id] == r.value)
      && (r == Err(NotFound) ==> id !in e.before.policies)
    case CreatePolicy(id, wanted, r) =>
      && e.after.actors == e.before.actors
      && (e.after == e.before
          || (id !in e.before.policies && e.after.policies == e.before.policies[id := wanted]))
      && (r.Ok? ==> id in e.after.policies && e.after.policies[id] == r.value && r.value == wanted)
      && (r == Err(AlreadyExists) ==> id in e.before.policies)
    case Probe(_, _) => e.after == e.before
  }

  class Control {
    var now: int
    var actors: map<string, Actor>
    var policies: map<string, Policy>
    ghost var trace: seq<Entry>

    constructor ()
      ensures trace == []
    {
      now := 0;
      actors, policies := map[], map[];
      trace := [];
    }

    function Snapshot(): Store
      reads this
    {
      Store(actors, policies)
    }

    /** Time passes, and other clients do whatever they like. */
    method Interfere()
      modifies this`now, this`actors, this`policies
      ensures now >= old(now)
    {
      var d: int :| d >= 0;
      now := now + d;
      actors, policies := *, *;
    }

    /** Sleeping takes at least the time asked for. */
    method Sleep(d: nat)
      modifies this`now
      ensures now >= old(now) + d
    {
      var late: int :| late >= 0;
      now := now + d + late;
    }

    /** Some code other than the ones with a meaning to the caller. */
    method SomeError() returns (code: Code)
      ensures code.OtherCode?
    {
      var n: int :| n >= 0;
      code := OtherCode(n);
    }

    method DoGetActor(id: string) returns (r: Result<Actor, Code>, ghost e: Entry)
      modifies this
      ensures now >= old(now)
      ensures trace == old(trace) + [e] && e.rpc == GetActor(id, r) && Honest(e)
    {
      Interfere();
      var lost: bool := *;
      if lost {
        var code := SomeError();
        r := Err(code);
      } else if id in actors {
        r := Ok(actors[id]);
      } else {
        r := Err(NotFound);
      }
      e := Entry(GetActor(id, r), Snapshot(), Snapshot());
      trace := trace + [e];
    }

    method DoCreateActor(id: string, template: Template) returns (r: Result<Actor, Code>, ghost e: Entry)
      modifies this
      ensures now >= old(now)
      ensures trace == old(trace) + [e] && e.rpc == CreateActor(id, template, r) && Honest(e)
    {
      Interfere();
      ghost var before := Snapshot();
      var requestLost: bool := *;
      var replyLost: bool := *;
      var code := SomeError();
      if requestLost {
        r := Err(code);
      } else if id in actors {
        r := if replyLost then Err(code) else Err(AlreadyExists);
      } else {
        var state: ActorState := *;
        actors := actors[id := Actor(id, template, state)];
        r := if replyLost then Err(code) else Ok(actors[id]);
      }
      e := Entry(CreateActor(id, template, r), before, Snapshot());
      trace := trace + [e];
    }

    method DoResume(id: string) returns (code: Option<Code>, ghost e: Entry)
      modifies this
      ensures now >= old(now)
      ensures trace == old(trace) + [e] && e.rpc == ResumeActor(id, code) && Honest(e)
    {
      Interfere();
      ghost var before := Snapshot();
      var requestLost: bool := *;
      var replyLost: bool := *;
      var other := SomeError();
      if requestLost {
        code := Some(other);
      } else if id !in actors {
        code := Some(NotFound);
      } else if actors[id].state != Suspended {
        code := Some(FailedPrecondition);
      } else {
        actors := actors[id := actors[id].(state := Resuming)];
        code := if replyLost then Some(other) else None;
      }
      e := Entry(ResumeActor(id, code), before, Snapshot());
      trace := trace + [e];
    }

    method DoGetPolicy(id: string) returns (r: Result<Policy, Code>, ghost e: Entry)
      modifies this
      ensures now >= old(now)
      ensures trace == old(trace) + [e] && e.rpc == GetPolicy(id, r) && Honest(e)
    {
      Interfere();
      var lost: bool := *;
      if lost {
        var code := SomeError();
        r := Err(code);
      } else if id in policies {
        r := Ok(policies[id]);
      } else {
        r := Err(NotFound);
      }
      e := Entry(GetPolicy(id, r), Snapshot(), Snapshot());
      trace := trace + [e];
    }

    method DoCreatePolicy(id: string, wanted: Policy) returns (r: Result<Policy, Code>, ghost e: Entry)
      modifies this
      ensures now >= old(now)
      ensures trace == old(trace) + [e] && e.rpc == CreatePolicy(id, wanted, r) && Honest(e)
    {
      Interfere();
      ghost var before := Snapshot();
      var requestLost: bool := *;
      var replyLost: bool := *;
      var code := SomeError();
      if requestLost {
        r := Err(code);
      } else if id in policies {
        r := if replyLost then Err(code) else Err(AlreadyExists);
      } else {
        policies := policies[id := wanted];
        r := if replyLost then Err(code) else Ok(wanted);
      }
      e := Entry(CreatePolicy(id, wanted, r), before, Snapshot());
      trace := trace + [e];
    }

    /** One HEAD request through the router: its status, or None when it failed. */
    method DoProbe(target: string) returns (status: Option<int>, ghost e: Entry)
      modifies this
      ensures now >= old(now)
      ensures trace == old(trace) + [e] && e.rpc == Probe(target, status) && Honest(e)
    {
      Interfere();
      status := *;
      e := Entry(Probe(target, status), Snapshot(), Snapshot());
      trace := trace + [e];
    }
  }
}
