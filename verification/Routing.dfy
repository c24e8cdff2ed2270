/** Requests, their bodies and the trusted routing of internal/proxy/proxy.go. */
module Routing {
  import opened Common

  /** The header that tells a shared router which actor a request is for; keys are in canonical form. */
  const ACTOR := "ate-target-actor"

  type Headers = map<string, seq<string>>

  function Values(h: Headers, key: string): seq<string> {
    if key in h then h[key] else []
  }

  /** What the actor header must say for an endpoint: nothing, or its actor. */
  function ActorHeader(ep: Endpoint): seq<string> {
    if ep.targetActor == "" then [] else [ep.targetActor]
  }

  datatype HostName = Named(name: string) | At(address: Address)

  /** What a reader yields from now on: some bytes, then the end of the stream or an error. */
  datatype Content = Content(bytes: seq<byte>, failing: bool)

  datatype ReadStatus = More | Eof | Failed

  class BodyReader {
    var rest: seq<byte>
    const failing: bool

    constructor (rest: seq<byte>, failing: bool)
      ensures this.rest == rest && this.failing == failing
    {
      this.rest := rest;
      this.failing := failing;
    }

    /**
     A read of at most `max` bytes: some non-empty chunk of any size, or the end. The last bytes may come
     together with the end of the stream or with the error that ends it.
     */
    method Read(max: nat) returns (chunk: seq<byte>, status: ReadStatus)
      requires max > 0
      modifies this`rest
      ensures old(rest) == chunk + rest && |chunk| <= max
      ensures status == More ==> chunk != []
      ensures status != More ==> rest == [] && status == if failing then Failed else Eof
    {
      var end, early: bool := if failing then Failed else Eof, *;
      if rest == [] {
        return [], end;
      }
      var k: nat :| 0 < k <= max && k <= |rest|;
      chunk := rest[..k];
      rest := rest[k..];
      status := if rest == [] && early then end else More;
    }
  }

  class Request {
    var urlHost: Address
    var host: HostName
    var headers: Headers
    /** The header names that the Connection header lists as hop-by-hop. */
    var connection: set<string>
    var body: BodyReader?
    /** The buffer that GetBody reads from, if GetBody is set. */
    var getBody: Option<seq<byte>>
    var hasSession: bool

    constructor (urlHost: Address, host: HostName, headers: Headers, connection: set<string>,
                 body: BodyReader?, getBody: Option<seq<byte>>, hasSession: bool)
      ensures this.urlHost == urlHost && this.host == host && this.headers == headers
      ensures this.connection == connection && this.body == body && this.getBody == getBody
      ensures this.hasSession == hasSession
    {
      this.urlHost, this.host, this.headers, this.connection := urlHost, host, headers, connection;
      this.body, this.getBody, this.hasSession := body, getBody, hasSession;
    }

    /** What a transport that sends this request would read as its body. */
    ghost function Offered(): Content
      reads this, body
    {
      if body == null then Content([], false) else Content(body.rest, body.failing)
    }

    /** A copy that shares only the body reader. */
    method Clone() returns (r: Request)
      ensures fresh(r)
      ensures r.urlHost == urlHost && r.host == host && r.headers == headers && r.connection == connection
      ensures r.body == body && r.getBody == getBody && r.hasSession == hasSession
    {
      r := new Request(urlHost, host, headers, connection, body, getBody, hasSession);
    }
  }

  /** Host and actor of the request come from its own target and the endpoint, whatever the caller sent. */
  method RouteRequest(r: Request, ep: Endpoint)
    modifies r`host, r`headers
    ensures r.host == At(r.urlHost)
    ensures Values(r.headers, ACTOR) == ActorHeader(ep)
    ensures if ep.targetActor == "" then ACTOR !in r.headers
            else ACTOR in r.headers && r.headers[ACTOR] == [ep.targetActor]
    ensures forall key :: key != ACTOR ==> Values(r.headers, key) == old(Values(r.headers, key))
  {
    r.host := At(r.urlHost);
    r.headers := r.headers - {ACTOR};
    if ep.targetActor != "" {
      r.headers := r.headers[ACTOR := [ep.targetActor]];
    }
  }
}
