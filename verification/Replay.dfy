/**
 One-shot recovery of the proxy's HTTP and WebSocket paths in internal/proxy/proxy.go: body
 buffering, the retry after a dial failure, and the dialling part of handleWS.
 */
module Replay {
  import opened Common
  import opened Routing
  import Objects = SessionManager

  type Session = Objects.Session

  const MAX_REPLAY_BODY_BYTES := 1048576

  // ---------------------------------------------------------------- sessions as the proxy reads them

  /** What a session that Refresh returned was like at that moment. */
  datatype Found = Found(ready: bool, endpoint: Endpoint) {
    /** Nothing will be written to its endpoint any more. */
    predicate Settled() {
      ready || endpoint != ZERO_ENDPOINT
    }
  }

  /** What the first read of the endpoint of such a session may give. */
  predicate MayRead(found: Found, ep: Endpoint) {
    found.Settled() ==> ep == found.endpoint
  }

  /** What the next read may give after one gave `last`: the endpoint is written at most once. */
  predicate MayFollow(found: Found, last: Endpoint, ep: Endpoint) {
    found.Settled() || last != ZERO_ENDPOINT ==> ep == last
  }

  /** What is known of a session by now, given how it came and what was read from it last. */
  ghost predicate Tracks(sess: Session, found: Found, last: Endpoint)
    reads sess
  {
    && (last != ZERO_ENDPOINT ==> sess.endpoint == last)
    && (found.Settled() ==> sess.endpoint == last && (sess.ready || last != ZERO_ENDPOINT))
  }

  /** The session manager as the proxy sees it. */
  class Sessions {
    var refreshes: seq<Result<Found, string>>

    constructor ()
      ensures refreshes == []
    {
      refreshes := [];
    }

    /** Manager.Refresh: an error, or a session in any state; others may hold the same session. */
    method Refresh() returns (res: Result<Session, string>, ghost found: Result<Found, string>)
      modifies this`refreshes
      ensures refreshes == old(refreshes) + [found]
      ensures res.Err? ==> found == Err(res.error)
      ensures res.Ok? ==> fresh(res.value) && found == Ok(Found(res.value.ready, res.value.endpoint))
    {
      var error: string, failed: bool := *, *;
      if failed {
        refreshes := refreshes + [Err(error)];
        return Err(error), Err(error);
      }
      var id: string := *;
      var sess := new Objects.Session(id, 0, 0);
      sess.endpoint, sess.ready := *, *;
      refreshes := refreshes + [Ok(Found(sess.ready, sess.endpoint))];
      return Ok(sess), Ok(Found(sess.ready, sess.endpoint));
    }

    /** One read of a session's endpoint, after whatever its resolver did since the last one. */
    method ReadEndpoint(sess: Session) returns (ep: Endpoint)
      modifies sess`endpoint, sess`ready
      ensures ep == sess.endpoint && (old(sess.ready) ==> sess.ready)
      ensures old(sess.ready) || old(sess.endpoint) != ZERO_ENDPOINT ==> ep == old(sess.endpoint)
    {
      var resolved: bool := *;
      if !sess.ready && resolved {
        if sess.endpoint == ZERO_ENDPOINT {
          sess.endpoint := *;
        }
        sess.ready := *;
      }
      ep := sess.endpoint;
    }
  }

  // ---------------------------------------------------------------- the upstream

  /**
   How a round trip ends. A failed one may be that of a client that went away. Once connected, the upstream
   may send interim responses, whose codes are `interim`, before it answers or fails.
   */
  datatype Outcome =
    | DialFailed(canceled: bool)
    | FailedLater(interim: seq<int>, canceled: bool)
    | Responded(interim: seq<int>, status: int)

  /** One round trip as the inner transport saw it. */
  datatype Attempt = Attempt(address: Address, host: HostName, actor: seq<string>, body: Content, outcome: Outcome)

  /** The upstream side, as an adversary: it answers anything. */
  class Upstream {
    var attempts: seq<Attempt>

    constructor ()
      ensures attempts == []
    {
      attempts := [];
    }

    /** The inner transport. It may consume any part of the body before it succeeds or fails. */
    method RoundTrip(req: Request) returns (res: Outcome, ghost made: Attempt)
      modifies this`attempts, req.body
      ensures made == old(AsAttempt(req)).(outcome := res) && attempts == old(attempts) + [made]
    {
      res := *;
      var body := if req.body == null then Content([], false) else Content(req.body.rest, req.body.failing);
      made := AsAttempt(req).(outcome := res);
      attempts := attempts + [Attempt(req.urlHost, req.host, Values(req.headers, ACTOR), body, res)];
      if req.body != null {
        req.body.rest := *;
      }
    }
  }

  /** The request as a transport would send it. */
  ghost function AsAttempt(req: Request): Attempt
    reads req, req.body
  {
    Attempt(req.urlHost, req.host, Values(req.headers, ACTOR), req.Offered(), DialFailed(false))
  }

  // ---------------------------------------------------------------- the retrying transport

  /** An attempt whose address and Host come from `at` and whose actor comes from `actor`. */
  predicate SentTo(a: Attempt, at: Endpoint, actor: Endpoint) {
    && a.address == Address(at.host, if at.mcpPort != 0 then at.mcpPort else at.port)
    && a.host == At(a.address)
    && a.actor == if actor.targetActor == "" then [] else [actor.targetActor]
  }

  /** An attempt whose address, Host and actor all come from `ep`. */
  predicate Routed(a: Attempt, ep: Endpoint) {
    SentTo(a, ep, ep)
  }

  /**
   What the retrying transport may do: `a` are the attempts it makes and `f` its Refresh results, for a
   request that would be sent as `first` and, if `replay` is set, can be sent again with that body. The two
   reads of the refreshed session give `at` and `actor`.
   */
  predicate RetrySpec(first: Attempt, replay: Option<Content>, a: seq<Attempt>, f: seq<Result<Found, string>>,
                      at: Endpoint, actor: Endpoint)
  {
    && 1 <= |a| <= 2 && |f| <= 1
    && a[0] == first.(outcome := a[0].outcome)
    && (f != [] <==> a[0].outcome.DialFailed? && replay.Some?)
    && (|a| == 2 <==> f != [] && f[0].Ok?)
    && (|a| == 2 ==>
          && MayRead(f[0].value, at) && MayFollow(f[0].value, at, actor)
          && SentTo(a[1], at, actor) && a[1].body == replay.value)
  }

  predicate Delivered(a: Attempt) {
    !a.outcome.DialFailed?
  }

  /** No two attempts got past dialling. */
  predicate DeliveredOnce(a: seq<Attempt>) {
    forall i, j :: 0 <= i < j < |a| ==> !(Delivered(a[i]) && Delivered(a[j]))
  }

  /** A second attempt is wholly routed to the endpoint of the session that Refresh returned, if that was settled. */
  predicate ReplayRouted(a: seq<Attempt>, f: seq<Result<Found, string>>) {
    |a| == 2 && f != [] && f[0].Ok? && f[0].value.Settled() ==> Routed(a[1], f[0].value.endpoint)
  }

  /** The body of a second attempt, if the request can have one. */
  ghost function ReplayOf(req: Request): Option<Content>
    reads req
  {
    if !req.hasSession || (req.body != null && req.getBody.None?) then None
    else if req.getBody.Some? then Some(Content(req.getBody.value, false))
    else Some(Content([], false))
  }

  /** The second attempt: routes the copied request to the refreshed session and sends it. */
  method SendAgain(u: Upstream, m: Sessions, req2: Request, sess: Session)
    returns (res: Outcome, ghost made: Attempt, ghost at: Endpoint, ghost actor: Endpoint)
    modifies u, sess`endpoint, sess`ready, req2`urlHost, req2`host, req2`headers, req2.body
    ensures u.attempts == old(u.attempts) + [made]
    ensures var found := Found(old(sess.ready), old(sess.endpoint)); MayRead(found, at) && MayFollow(found, at, actor)
    ensures SentTo(made, at, actor) && made.body == old(req2.Offered()) && made.outcome == res
  {
    var ep := m.ReadEndpoint(sess);
    at := ep;
    req2.urlHost := ep.McpAddr();
    ep := m.ReadEndpoint(sess);
    actor := ep;
    RouteRequest(req2, ep);
    res, made := u.RoundTrip(req2);
  }

  /**
   retryingTransport.RoundTrip. It leaves the request itself alone and only reads its body. Whatever the
   upstream does, at most one attempt gets past dialling.
   */
  method RetryingRoundTrip(u: Upstream, m: Sessions, req: Request)
    returns (res: Outcome, ghost a: seq<Attempt>, ghost f: seq<Result<Found, string>>,
             ghost at: Endpoint, ghost actor: Endpoint)
    modifies u, m, req.body
    ensures u.attempts == old(u.attempts) + a && m.refreshes == old(m.refreshes) + f
    ensures RetrySpec(old(AsAttempt(req)), old(ReplayOf(req)), a, f, at, actor)
    ensures DeliveredOnce(a) && ReplayRouted(a, f)
    ensures res == a[|a| - 1].outcome
  {
    ghost var made;
    f, at, actor := [], ZERO_ENDPOINT, ZERO_ENDPOINT;
    res, made := u.RoundTrip(req);
    a := [made];
    if !res.DialFailed? {
      return;
    }
    if !req.hasSession {
      return;
    }
    var hasBody := req.body != null;
    if hasBody && req.getBody.None? {
      return;
    }
    var refreshed, found := m.Refresh();
    f := [found];
    if refreshed.Err? {
      return;
    }
    var req2 := req.Clone();
    if req.getBody.Some? {
      req2.body := new BodyReader(req.getBody.value, false);
    }
    res, made, at, actor := SendAgain(u, m, req2, refreshed.value);
    a := a + [made];
  }

  /** Whenever Refresh returned `found`, a second attempt takes address, Host and actor from one reading. */
  ghost predicate ReplaysAreWhole(found: Found) {
    forall first, replay, a, at, actor ::
      RetrySpec(first, replay, a, [Ok(found)], at, actor) && |a| == 2 ==> Routed(a[1], actor)
  }

  /**
   A second attempt is sent to an address of nobody with the actor of a real endpoint, because the session
   was resolved between the two reads of its endpoint.
   */
  lemma MixedReplay(found: Found) returns (first: Attempt, a: seq<Attempt>, at: Endpoint, actor: Endpoint)
    requires !found.Settled()
    ensures RetrySpec(first, Some(first.body), a, [Ok(found)], at, actor) && |a| == 2
    ensures !Routed(a[1], at) && !Routed(a[1], actor)
  {
    var body := Content([], false);
    first := Attempt(Address("stale", 80), At(Address("stale", 80)), [], body, DialFailed(false));
    at, actor := ZERO_ENDPOINT, Endpoint("router", "ns/pw-a", 80, 0);
    a := [first, Attempt(Address("", 0), At(Address("", 0)), ["ns/pw-a"], body, Responded([], 200))];
    assert ActorHeader(actor) == ["ns/pw-a"] && ActorHeader(at) == [];
  }

  /**
   Second attempts are wholly routed, whatever the resolver does meanwhile, if and only if the session was
   settled when Refresh returned it: every one that Get returned is, one from the cooldown branch need not be.
   */
  lemma ReplayRoutedExactly(found: Found)
    ensures ReplaysAreWhole(found) <==> found.Settled()
  {
    if !found.Settled() {
      var first, a, at, actor := MixedReplay(found);
      assert !Routed(a[1], actor);
    }
  }

  // ---------------------------------------------------------------- buffering

  datatype Buffering = NoBody | Streamed | Buffered(buf: seq<byte>) | Unreadable

  /**
   How handleHTTP may treat a body, by what the client would deliver. Only a body that breaks off one byte
   over the cap is treated either way: the error is seen if it comes together with the last byte.
   */
  predicate MayBuffer(hasBody: bool, c: Content, how: Buffering) {
    match how
    case NoBody => !hasBody
    case Streamed => hasBody && |c.bytes| > MAX_REPLAY_BODY_BYTES
    case Buffered(buf) => hasBody && |c.bytes| <= MAX_REPLAY_BODY_BYTES && !c.failing && buf == c.bytes
    case Unreadable => hasBody && c.failing && |c.bytes| <= MAX_REPLAY_BODY_BYTES + 1
  }

  /** io.ReadAll over io.LimitReader: a reader of any chunk sizes, cut off after `limit` bytes. */
  method ReadLimited(b: BodyReader, limit: nat) returns (buf: seq<byte>, ok: bool)
    modifies b`rest
    ensures old(b.rest) == buf + b.rest
    ensures |buf| == Min(|old(b.rest)|, limit)
    ensures |old(b.rest)| < limit ==> (ok <==> !b.failing)
    ensures |old(b.rest)| > limit || !b.failing ==> ok
  {
    buf, ok := [], true;
    while |buf| < limit
      invariant |buf| <= limit && ok
      invariant old(b.rest) == buf + b.rest
      decreases limit - |buf|
    {
      var chunk, status := b.Read(limit - |buf|);
      buf := buf + chunk;
      if status != More {
        ok := status == Eof;
        return;
      }
    }
  }

  /** The buffering block of handleHTTP on the outgoing request; Unreadable when it gives up. */
  method BufferBody(r2: Request) returns (how: Buffering)
    requires r2.getBody.None?
    modifies r2`body, r2`getBody, r2.body
    ensures MayBuffer(old(r2.body) != null, old(r2.Offered()), how)
    ensures !how.Unreadable? ==>
      && r2.Offered() == old(r2.Offered()) && (r2.body == null <==> old(r2.body) == null)
      && r2.getBody == if how.Buffered? then Some(how.buf) else None
    ensures !how.Unreadable? && r2.body != null ==> fresh(r2.body)
  {
    if r2.body == null {
      return NoBody;
    }
    var buf, read := ReadLimited(r2.body, MAX_REPLAY_BODY_BYTES + 1);
    if !read {
      return Unreadable;
    }
    if |buf| > MAX_REPLAY_BODY_BYTES {
      r2.body := new BodyReader(buf + r2.body.rest, r2.body.failing);
      return Streamed;
    }
    r2.body := new BodyReader(buf, false);
    r2.getBody := Some(buf);
    return Buffered(buf);
  }

  // ---------------------------------------------------------------- the HTTP path

  /**
   What the HTTP path may do for a session at `ep` once the body is treated as `how` says.
   httputil.ReverseProxy removes the headers that the caller's Connection header lists before the first
   attempt; the replay sets the actor header again.
   */
  predicate HttpSpec(ep: Endpoint, how: Buffering, c: Content, connection: set<string>,
                     a: seq<Attempt>, f: seq<Result<Found, string>>, at: Endpoint, actor: Endpoint)
  {
    var firstActor := if ACTOR in connection then [] else ActorHeader(ep);
    var sent := Attempt(ep.McpAddr(), At(ep.McpAddr()), firstActor, c, DialFailed(false));
    if how.Unreadable? then a == [] && f == []
    else RetrySpec(sent, if how.Streamed? then None else Some(c), a, f, at, actor)
  }

  /**
   Every attempt offers exactly the client's bytes, for every body length; a body over 1 MiB is sent once, and
   every other one is sent again after a dial failure, if Refresh succeeds.
   */
  predicate Faithful(c: Content, a: seq<Attempt>, f: seq<Result<Found, string>>) {
    && (forall x <- a :: x.body == c)
    && (|c.bytes| > 1_048_576 ==> |a| <= 1 && f == [])
    && (|c.bytes| <= 1_048_576 && a != [] && a[0].outcome.DialFailed? ==> |f| == 1 && (|a| == 2 <==> f[0].Ok?))
    && (a == [] ==> c.failing && |c.bytes| <= 1_048_577)
    && (c.failing && |c.bytes| <= 1_048_576 ==> a == [])
  }

  /**
   The first attempt is sent to the session's endpoint, with its actor exactly when the caller's Connection
   header does not list the actor header, and with none otherwise. A caller's own value is never sent.
   */
  predicate FirstRouted(ep: Endpoint, connection: set<string>, a: seq<Attempt>) {
    a != [] ==>
      && (Routed(a[0], ep) <==> ep.targetActor == "" || ACTOR !in connection)
      && a[0].address == Address(ep.host, if ep.mcpPort != 0 then ep.mcpPort else ep.port)
      && a[0].host == At(a[0].address)
      && (a[0].actor == [ep.targetActor] || a[0].actor == [])
  }

  lemma HttpFacts(ep: Endpoint, hasBody: bool, how: Buffering, c: Content, connection: set<string>,
                  a: seq<Attempt>, f: seq<Result<Found, string>>, at: Endpoint, actor: Endpoint)
    requires (!hasBody ==> c == Content([], false)) && MayBuffer(hasBody, c, how)
    requires HttpSpec(ep, how, c, connection, a, f, at, actor)
    ensures Faithful(c, a, f) && FirstRouted(ep, connection, a)
  {
  }

  /** handleHTTP up to its call of the ReverseProxy: the outgoing request, unless the body is unreadable. */
  method Outgoing(r: Request, ep: Endpoint) returns (r2: Request, how: Buffering)
    requires r.getBody.None?
    modifies r.body
    ensures fresh(r2) && r2.hasSession && r2.connection == r.connection
    ensures var c := old(r.Offered());
      && MayBuffer(r.body != null, c, how)
      && (!how.Unreadable? ==>
            && AsAttempt(r2) == Attempt(ep.McpAddr(), At(ep.McpAddr()), ActorHeader(ep), c, DialFailed(false))
            && ReplayOf(r2) == if how.Streamed? then None else Some(c))
    ensures !how.Unreadable? && r2.body != null ==> fresh(r2.body)
  {
    r2 := r.Clone();
    r2.urlHost := ep.McpAddr();
    RouteRequest(r2, ep);
    how := BufferBody(r2);
    r2.hasSession := true;
  }

  /** httputil.ReverseProxy: what it sends is a copy without the headers listed in Connection. */
  method StripHopByHop(r2: Request) returns (out: Request)
    ensures fresh(out) && out.body == r2.body && ReplayOf(out) == ReplayOf(r2)
    ensures AsAttempt(out) == AsAttempt(r2).(actor := if ACTOR in r2.connection then [] else AsAttempt(r2).actor)
  {
    out := r2.Clone();
    out.headers := out.headers - out.connection;
  }

  const SWITCHING_PROTOCOLS := 101

  /** The recorder around the client's ResponseWriter: it keeps the first code it is given, and passes all on. */
  class StatusRecorder {
    var status: int
    var wroteHeader: bool
    var written: seq<int>

    ghost predicate Valid()
      reads this
    {
      wroteHeader == (written != []) && status == First(written)
    }

    constructor ()
      ensures Valid() && written == []
    {
      status, wroteHeader, written := 200, false, [];
    }

    method WriteHeader(code: int)
      requires Valid()
      modifies this
      ensures Valid() && written == old(written) + [code]
    {
      if !wroteHeader {
        status, wroteHeader := code, true;
      }
      written := written + [code];
    }
  }

  /** What the recorder tells after these codes: the first one, and 200 if there was none. */
  function First(codes: seq<int>): int {
    if codes == [] then 200 else codes[0]
  }

  /**
   The codes written for an exchange by its last attempt: the interim ones and a final one. For a client that
   went away proxyError writes nothing. The recorder cannot be hijacked, so a 101 ends in proxyError too.
   */
  function Codes(last: Outcome): seq<int> {
    match last
    case DialFailed(canceled) => if canceled then [] else [502]
    case FailedLater(interim, canceled) => interim + if canceled then [] else [502]
    case Responded(interim, status) => interim + [if status == SWITCHING_PROTOCOLS then 502 else status]
  }

  /** What goes to the client and to the metrics after a last attempt, case by case. */
  predicate Reported(last: Outcome, written: seq<int>, recorded: Option<int>) {
    match last
    case DialFailed(canceled) => if canceled then written == [] && recorded == Some(200)
                                 else written == [502] && recorded == Some(502)
    case FailedLater(interim, canceled) =>
      && (if canceled then written == interim else written == interim + [502])
      && recorded == Some(if interim != [] then interim[0] else if canceled then 200 else 502)
    case Responded(interim, status) =>
      && (if status == 101 then written == interim + [502] else written == interim + [status])
      && recorded == Some(if interim != [] then interim[0] else if status == 101 then 502 else status)
  }

  method ProxyError(sr: StatusRecorder, canceled: bool)
    requires sr.Valid()
    modifies sr
    ensures sr.Valid() && sr.written == old(sr.written) + if canceled then [] else [502]
  {
    if canceled {
      return;
    }
    sr.WriteHeader(502);
  }

  /** What the ReverseProxy passes on of a round trip: interim responses as they come, and the end of it. */
  method Relay(sr: StatusRecorder, res: Outcome)
    requires sr.Valid() && sr.written == []
    modifies sr
    ensures sr.Valid() && sr.written == Codes(res)
  {
    var interim := if res.DialFailed? then [] else res.interim;
    for k := 0 to |interim|
      invariant sr.Valid() && sr.written == interim[..k]
    {
      sr.WriteHeader(interim[k]);
    }
    match res {
      case DialFailed(canceled) => ProxyError(sr, canceled);
      case FailedLater(_, canceled) => ProxyError(sr, canceled);
      case Responded(_, status) =>
        if status == SWITCHING_PROTOCOLS {
          ProxyError(sr, false);
        } else {
          sr.WriteHeader(status);
        }
    }
  }

  /** Answers the client through a new recorder. */
  method Respond(res: Outcome) returns (status: int, written: seq<int>)
    ensures written == Codes(res) && status == First(written) && Reported(res, written, Some(status))
  {
    var sr := new StatusRecorder();
    Relay(sr, res);
    status, written := sr.status, sr.written;
  }

  /**
   handleHTTP for a session that Get returned, whose endpoint is `ep`, with its ReverseProxy. `written` are
   the codes written to the client and `recorded` is the status that goes to the metrics: the first of them,
   or 200. Without an attempt there is no record, and the client is sent 502.
   */
  method HandleHttp(u: Upstream, m: Sessions, r: Request, ep: Endpoint)
    returns (recorded: Option<int>, written: seq<int>, how: Buffering,
             ghost a: seq<Attempt>, ghost f: seq<Result<Found, string>>, ghost at: Endpoint, ghost actor: Endpoint)
    requires r.getBody.None?
    modifies u, m, r.body
    ensures u.attempts == old(u.attempts) + a && m.refreshes == old(m.refreshes) + f
    ensures MayBuffer(r.body != null, old(r.Offered()), how)
    ensures HttpSpec(ep, how, old(r.Offered()), r.connection, a, f, at, actor)
    ensures Faithful(old(r.Offered()), a, f)
    ensures DeliveredOnce(a) && FirstRouted(ep, r.connection, a) && ReplayRouted(a, f)
    ensures written == if a == [] then [502] else Codes(a[|a| - 1].outcome)
    ensures recorded == if a == [] then None else Some(First(written))
    ensures a != [] ==> Reported(a[|a| - 1].outcome, written, recorded)
  {
    var r2, res;
    ghost var c := r.Offered();
    a, f, at, actor := [], [], ZERO_ENDPOINT, ZERO_ENDPOINT;
    r2, how := Outgoing(r, ep);
    if how.Unreadable? {
      HttpFacts(ep, r.body != null, how, c, r.connection, a, f, at, actor);
      recorded, written := None, [502];
      return;
    }
    var out := StripHopByHop(r2);
    res, a, f, at, actor := RetryingRoundTrip(u, m, out);
    HttpFacts(ep, r.body != null, how, c, r.connection, a, f, at, actor);
    var status;
    status, written := Respond(res);
    recorded := Some(status);
  }

  /** A first attempt without its actor: the caller's Connection header lists the actor header. */
  lemma StrippedActor() returns (ep: Endpoint, a: Attempt)
    ensures HttpSpec(ep, NoBody, Content([], false), {ACTOR}, [a], [], ZERO_ENDPOINT, ZERO_ENDPOINT) && !Routed(a, ep)
  {
    ep := Endpoint("router", "ns/pw-a", 80, 0);
    a := Attempt(ep.McpAddr(), At(ep.McpAddr()), [], Content([], false), Responded([], 404));
    assert ActorHeader(ep) == ["ns/pw-a"];
  }

  // ---------------------------------------------------------------- the WebSocket path

  datatype Dial = Dial(address: Address, ok: bool)

  /** The upgrade request as it is written to the backend. */
  datatype Upgrade = Upgrade(urlHost: Address, host: HostName, actor: seq<string>)

  datatype WsResult =
    | ClientError(status: int)       // an error page from the proxy
    | Forwarded(status: int)         // the backend refused the upgrade; the final status the client gets
    | Abandoned                      // the client connection was lost after the backend agreed
    | Spliced                        // the tunnel runs, and counts as a connection

  /** The network around handleWS, as an adversary. */
  class WsWorld {
    var dials: seq<Dial>
    var sent: seq<Upgrade>
    /** Whether each write of an upgrade request succeeded. */
    var written: seq<bool>
    var answers: seq<Option<int>>
    /** Whether each take-over of the client connection succeeded. */
    var taken: seq<bool>
    var connections: nat

    method DialContext(address: Address) returns (ok: bool)
      modifies this`dials
      ensures dials == old(dials) + [Dial(address, ok)]
    {
      ok := *;
      dials := dials + [Dial(address, ok)];
    }

    method Write(r: Request) returns (ok: bool)
      modifies this`sent, this`written
      ensures sent == old(sent) + [Upgrade(r.urlHost, r.host, Values(r.headers, ACTOR))]
      ensures written == old(written) + [ok]
    {
      ok := *;
      written := written + [ok];
      sent := sent + [Upgrade(r.urlHost, r.host, Values(r.headers, ACTOR))];
    }

    /** http.ReadResponse: the status of the backend's answer, or None on an error. */
    method ReadResponse() returns (status: Option<int>)
      modifies this`answers
      ensures answers == old(answers) + [status]
    {
      status := *;
      answers := answers + [status];
    }

    /** Hijack the client connection and replay the handshake on it. */
    method TakeOver() returns (ok: bool)
      modifies this`taken
      ensures taken == old(taken) + [ok]
    {
      ok := *;
      taken := taken + [ok];
    }
  }

  /** The session that handleWS ends up with, as it was when it came: the one it was given, or a refreshed one. */
  function Current(ep: Endpoint, f: seq<Result<Found, string>>): Found {
    if f != [] && f[0].Ok? then f[0].value else Found(true, ep)
  }

  function UpgradeFor(at: Endpoint, actor: Endpoint): Upgrade {
    Upgrade(Address(at.host, at.port), At(Address(at.host, at.port)),
            if actor.targetActor == "" then [] else [actor.targetActor])
  }

  /**
   One dial, and after a failure one Refresh and, if that succeeded, one more; each to the endpoint just
   read from the session, which is `last` in the end.
   */
  predicate Dialled(ep: Endpoint, d: seq<Dial>, f: seq<Result<Found, string>>, last: Endpoint) {
    && 1 <= |d| <= 2 && |f| <= 1
    && d[0].address == Address(ep.host, ep.port)
    && (f != [] <==> !d[0].ok)
    && (|d| == 2 <==> f != [] && f[0].Ok?)
    && d[|d| - 1].address == Address(last.host, last.port) && MayRead(Current(ep, f), last)
  }

  /** Which dials and refreshes the WebSocket path may make for a session at `ep`, and what it sends. */
  predicate WsSpec(ep: Endpoint, hijackable: bool, d: seq<Dial>, f: seq<Result<Found, string>>,
                   last: Endpoint, at: Endpoint, actor: Endpoint, sent: seq<Upgrade>)
  {
    if !hijackable then d == [] && f == [] && sent == []
    else
      && Dialled(ep, d, f, last)
      && if !d[|d| - 1].ok then sent == []
         else
           && sent == [UpgradeFor(at, actor)]
           && MayFollow(Current(ep, f), last, at) && MayFollow(Current(ep, f), at, actor)
  }

  /**
   What the client gets for an answer of the backend: a refusal with its own status, unless that is an interim
   one, after which net/http ends the exchange with 200; and after a 101 a tunnel, if and only if the client
   connection could be taken over.
   */
  predicate Answered(answer: Option<int>, taken: seq<bool>, res: WsResult) {
    match answer
    case None => res == ClientError(502) && taken == []
    case Some(status) =>
      if status == 101 then |taken| == 1 && res == if taken[0] then Spliced else Abandoned
      else res == Forwarded(if 100 <= status < 200 then 200 else status) && taken == []
  }

  predicate IsInterim(status: int) {
    100 <= status < 200
  }

  /** The upgrade request has been written or not, the answer is read exactly if it was, and `res` follows from it. */
  predicate Concluded(written: seq<bool>, answers: seq<Option<int>>, taken: seq<bool>, res: WsResult) {
    && |written| == 1
    && if written[0] then |answers| == 1 && Answered(answers[0], taken, res)
       else answers == [] && taken == [] && res == ClientError(502)
  }

  /** What the client gets, by what the backend did. */
  predicate WsAnswered(d: seq<Dial>, written: seq<bool>, answers: seq<Option<int>>, taken: seq<bool>, res: WsResult) {
    if d == [] then written == [] && answers == [] && taken == [] && res == ClientError(500)
    else if !d[|d| - 1].ok then written == [] && answers == [] && taken == [] && res == ClientError(502)
    else Concluded(written, answers, taken, res)
  }

  /**
   Whatever is sent goes to a backend that was dialled; and if the session was settled when it came, the
   address dialled and the address, Host and actor sent are all those of its endpoint.
   */
  predicate UpgradeRouted(ep: Endpoint, d: seq<Dial>, f: seq<Result<Found, string>>, sent: seq<Upgrade>) {
    sent != [] ==>
      && d != [] && d[|d| - 1].ok
      && var cur := Current(ep, f);
      (cur.Settled() ==>
         && d[|d| - 1].address == Address(cur.endpoint.host, cur.endpoint.port)
         && sent == [UpgradeFor(cur.endpoint, cur.endpoint)])
  }

  /** The dialling part of handleWS. */
  method Connect(w: WsWorld, m: Sessions, given: Session)
    returns (sess: Session, connected: bool,
             ghost d: seq<Dial>, ghost f: seq<Result<Found, string>>, ghost last: Endpoint)
    requires given.ready && w.dials == [] && m.refreshes == []
    modifies w`dials, m, given`endpoint, given`ready
    ensures w.dials == d && m.refreshes == f
    ensures Dialled(old(given.endpoint), d, f, last) && connected == d[|d| - 1].ok
    ensures Tracks(sess, Current(old(given.endpoint), f), last) && (sess == given || fresh(sess))
  {
    sess, f := given, [];
    var ep := m.ReadEndpoint(sess);
    connected := w.DialContext(ep.Addr());
    d, last := [Dial(ep.Addr(), connected)], ep;
    if !connected {
      var refreshed, found := m.Refresh();
      f := [found];
      if refreshed.Ok? {
        sess := refreshed.value;
        ep := m.ReadEndpoint(sess);
        connected := w.DialContext(ep.Addr());
        d, last := d + [Dial(ep.Addr(), connected)], ep;
      }
    }
  }

  /** What handleWS makes of the backend's answer, once the upgrade request is written. */
  method Answer(w: WsWorld) returns (res: WsResult)
    requires w.answers == [] && w.taken == []
    modifies w`answers, w`taken, w`connections
    ensures |w.answers| == 1 && Answered(w.answers[0], w.taken, res)
    ensures w.connections == old(w.connections) + if res.Spliced? then 1 else 0
  {
    var answer := w.ReadResponse();
    if answer.None? {
      return ClientError(502);
    }
    if answer.value != SWITCHING_PROTOCOLS {
      return Forwarded(if IsInterim(answer.value) then 200 else answer.value);
    }
    var taken := w.TakeOver();
    if !taken {
      return Abandoned;
    }
    w.connections := w.connections + 1;
    return Spliced;
  }

  /** The part of handleWS after dialling: routes the upgrade request to the session and writes it to the backend. */
  method SendUpgrade(w: WsWorld, m: Sessions, r: Request, sess: Session, ghost found: Found, ghost last: Endpoint)
    returns (res: WsResult, ghost at: Endpoint, ghost actor: Endpoint)
    requires Tracks(sess, found, last) && w.sent == [] && w.written == [] && w.answers == [] && w.taken == []
    modifies w`sent, w`written, w`answers, w`taken, w`connections, sess`endpoint, sess`ready
    ensures w.sent == [UpgradeFor(at, actor)] && MayFollow(found, last, at) && MayFollow(found, at, actor)
    ensures Concluded(w.written, w.answers, w.taken, res)
    ensures w.connections == old(w.connections) + if res.Spliced? then 1 else 0
  {
    var outReq := r.Clone();
    var ep := m.ReadEndpoint(sess);
    at := ep;
    outReq.urlHost := ep.Addr();
    ep := m.ReadEndpoint(sess);
    actor := ep;
    RouteRequest(outReq, ep);
    var written := w.Write(outReq);
    if !written {
      res := ClientError(502);
      return;
    }
    res := Answer(w);
  }

  /** handleWS up to the splice, for a session that Get returned. Only a splice counts as an open connection. */
  method HandleWs(w: WsWorld, m: Sessions, r: Request, given: Session, hijackable: bool)
    returns (res: WsResult, ghost last: Endpoint, ghost at: Endpoint, ghost actor: Endpoint)
    requires w.dials == [] && w.sent == [] && w.written == [] && w.answers == [] && w.taken == []
    requires given.ready && m.refreshes == []
    modifies w, m, given`endpoint, given`ready
    ensures WsSpec(old(given.endpoint), hijackable, w.dials, m.refreshes, last, at, actor, w.sent)
    ensures WsAnswered(w.dials, w.written, w.answers, w.taken, res)
    ensures res.Spliced? <==> w.answers == [Some(101)] && w.taken == [true]
    ensures res.Abandoned? <==> w.answers == [Some(101)] && w.taken == [false]
    ensures w.answers != [] <==> w.written == [true]
    ensures UpgradeRouted(old(given.endpoint), w.dials, m.refreshes, w.sent)
    ensures w.connections == old(w.connections) + if res.Spliced? then 1 else 0
  {
    last, at, actor := *, *, *;
    if !hijackable {
      res := ClientError(500);
      return;
    }
    ghost var from, d, f := given.endpoint, [], [];
    var sess, connected;
    sess, connected, d, f, last := Connect(w, m, given);
    if !connected {
      res := ClientError(502);
      return;
    }
    res, at, actor := SendUpgrade(w, m, r, sess, Current(from, f), last);
  }

  /** Whenever Refresh returned `found`, an upgrade is sent to the address that was dialled, wholly routed to it. */
  ghost predicate UpgradesAreWhole(found: Found) {
    forall ep, d, last, at, actor, sent ::
      WsSpec(ep, true, d, [Ok(found)], last, at, actor, sent) && sent != [] ==> sent == [UpgradeFor(last, last)]
  }

  /** As for HTTP: upgrades after a Refresh are wholly routed if and only if its session was settled. */
  lemma UpgradeRoutedExactly(found: Found)
    ensures UpgradesAreWhole(found) <==> found.Settled()
  {
    if !found.Settled() {
      var ep := Endpoint("router", "ns/pw-a", 80, 0);
      var d := [Dial(ep.Addr(), false), Dial(ZERO_ENDPOINT.Addr(), true)];
      assert WsSpec(ep, true, d, [Ok(found)], ZERO_ENDPOINT, ZERO_ENDPOINT, ep, [UpgradeFor(ZERO_ENDPOINT, ep)]);
      assert ActorHeader(ep) == ["ns/pw-a"] && ActorHeader(ZERO_ENDPOINT) == [];
    }
  }
}
