# playwright-proxy, verified model

A Dafny 4.11 model of the per-namespace Playwright proxy, with proofs about the parts of it that are
hardest to get right: the session manager as a concurrent protocol, the one-shot recovery and the
WebSocket splice of the proxy, the substrate actor driver against a server that others also change, the
pod index with its timed diagnostic claims, and the naming of isola resources.

`dafny verify dfyconfig.toml` checks everything.

## How the model is organised

| files | what they hold |
|---|---|
| `Common` | Option, Result, endpoints, time |
| `SessionCore`, `SessionManager` | the data a session manager guards and one value function for each locked section; the `Session` and `Manager` classes, every method proved equal to its function |
| `SessionProtocol` | handlers, resolvers, reaper and reconciler interleaved over one clock, with a history of events |
| `SessionShape`, `SessionLedger`, `SessionEvents` | the inductive invariant: structure, bookkeeping, meaning of events |
| `SessionTheorems` | the results over every reachable state and every run |
| `SessionNotes` | what the refresh times remember, and what the cooldown test therefore says |
| `SessionHandlers` | the course of one handler through any run; nobody gets stuck |
| `SessionAtomic` | the sections that keep the lock over several steps do what the whole loops do, in any interleaving |
| `SessionRuns`, `SessionCooldown`, `SessionRefresh` | building runs; how far apart drops are; how often Refresh asks for Ensure, and what bounds it |
| `Tunnel` | the two-pump splice, its accounting and its shutdown |
| `Routing`, `Replay` | requests, body buffering, the retrying transport, the dialling part of the WebSocket path |
| `ControlServer`, `Substrate`, `Served`, `Listing` | an adversarial control plane, the driver's loops, what success says about the store, paginated listing |
| `Diagnostics`, `Identify` | timed claims as a protocol; the index and the lookup loop |
| `Isola` | bounded names and the label round trip |

Sessions are named by their allocation number; comparing those is the source's pointer comparison. In the
protocol each locked section is one step, but the reaper's scan and the reconciler's loop keep the lock
over one step for each entry, so that unlocked accesses (counters, activity marks, publication) can fall
between two entries. That `Refresh` is only given a session which `Get` returned is not assumed: handlers
are modelled from their arrival, and it is part of the invariant.

The outside world answers anything. Control calls may lose the request or the reply, other clients may
change the store before any call, transports may fail in any way, readers and writers use any chunk sizes.
SHA-256 is a parameter: any function to 32 bytes. Time is an integer number of nanoseconds.

## Where code and comments disagree

- The comments on `refreshCooldown` (internal/session/session.go:39-42) and `Refresh` (217-220) promise that
  the cooldown bounds how often Refresh has Ensure called again for one id. It does not, for any idle TTL.
  Inside the cooldown Refresh goes on to Get when the map has no entry (session.go:226-229), and a failed
  Ensure removes the entry, so every holder of a stale session asks once more: `RefreshAsksWithoutBound`
  gives a run with any number of such calls at one instant and `CallsDoNotKeepCooldown` refutes the promise.
  `RefreshAsksExactly` says exactly when one Refresh asks. What does hold is `RefreshLoadIsBounded`: the calls
  are at most the drops of the id plus one, and only the drops after failed Ensures are not bounded by time.
- The drops that Refresh makes are themselves one cooldown apart exactly when the idle TTL is at least the
  cooldown (`DropsKeepCooldownExactly`), because the reaper deletes the cooldown entry with the session; the
  smaller of the two always separates them (`DropsAreSpaced`).
- A Refresh past the cooldown test notes its time also when its stale session is not the entry any more
  (session.go:231-234). The note keeps the id's next Refresh from dropping for one cooldown, unless the reaper
  takes the entry in between, which may be idle however recently its id was refreshed: `NotesAreSpaced` is the
  exact statement and `NoteLostByReap` a run, under every idle TTL, with a drop at the instant of such a note.
- Lookup's comment (internal/identify/identify.go:75) speaks of about 3 s of polling; the loop makes 100
  polls with 100 ms of sleep after each, which is what `Lookup` states.
- `routeRequest` (internal/proxy/proxy.go:398-405) sets the actor header for every attempt, but on the HTTP
  path the first attempt goes through httputil.ReverseProxy, which drops the headers that the caller's
  Connection header lists (section 7.6.1 of RFC 9110). The first attempt then carries no actor:
  `HandleHttp` states the exact condition and `StrippedActor` is an instance. A caller's own value is never
  forwarded.
- The comment on `retryingTransport` (internal/proxy/proxy.go:82-86) speaks of a replay against the fresh
  endpoint. The endpoint is read twice (proxy.go:118-119) from a session that the cooldown branch may return
  unresolved; if it is resolved between the reads, the replay goes to the zero address with the new actor.
  `ReplayRoutedExactly` and `UpgradeRoutedExactly` give the exact condition and `MixedReplay` an instance.
- Ensure compares the template of an actor (internal/backend/substrate.go:135) and its egress policy
  (substrate.go:165-193) once each. Other clients may change both before the accepted probe, whatever the first
  answer was, and Ensure then serves a foreign template: `NoAnswerKeepsTemplate`, with `ReplacedActor` as the
  instance for every first answer that can lead to success. `TemplateServedExactly` and `PolicyServedExactly`
  give the exact condition: nobody changed them since, or the last change put them back.

## Model

| member | source | states |
|---|---|---|
| `SessionManager.Manager.Enter` | internal/session/session.go:107-115 | Get's first locked section: the entry of the id, or a new session installed under it |
| `SessionManager.Manager.Install` | internal/session/session.go:110-113 | a new, unresolved session becomes the entry of its id and nothing else changes |
| `SessionManager.Manager.DropBroken` | internal/session/session.go:121-125 | a waiter that saw a failure removes the entry only if it is still its own session |
| `SessionManager.Manager.Finish` | internal/session/session.go:134-153 | resolve publishes one result into the session and then closes its channel |
| `SessionManager.Manager.RefreshLocked` | internal/session/session.go:222-235 | inside the cooldown nothing changes and the current entry, ready or not, is returned; otherwise the time is noted in any case, and the entry goes exactly if it is the stale session |
| `SessionManager.Manager.VisitLocked` | internal/session/session.go:174-190 | the reaper's loop body removes an entry and its cooldown exactly when it is ready, unconnected and idle since the cutoff |
| `SessionManager.Manager.ScanLocked` | internal/session/session.go:170-191 | for any iteration order the scan leaves exactly the entries that are not doomed, and its victims are the doomed ones, each once |
| `SessionManager.Manager.DeleteVictims` | internal/session/session.go:193-204 | each victim gets one Delete attempt, in order, whatever earlier attempts answered |
| `SessionManager.Manager.ReconcileLocked` | internal/session/session.go:87-101 | the startup loop over the listed ids |
| `SessionCore.ScanOrderIrrelevant` | internal/session/session.go:174-190 | visiting the entries one by one in any order gives the one order-free result |
| `SessionCore.ReconcileAddsExactly` | internal/session/session.go:82-102 | one fresh session for each distinct listed id without an entry; existing sessions, entries and refresh times stay |
| `SessionTheorems.SingleFlight` | internal/backend/backend.go:40-45 | in every reachable state at most one Ensure is in flight per id, and an unresolved session is the entry of its id |
| `SessionTheorems.OnlyReadySessionsLeave` | internal/session/session.go:212-215 | only ready sessions leave the map; a late waiter or a late refresher removes only the session it holds, never a newer one |
| `SessionTheorems.OnlyLockedSectionsTouchTheMap` | internal/session/session.go:117-132 | a stretch of any length without the five locked sections that write, such as one of cancelled Gets, resolvers, tunnels and Delete calls, leaves the map and the refresh times as they were |
| `SessionTheorems.SessionsAreConserved` | internal/session/session.go:104-153 | over any run, sessions created for an id are its failure drops, Refresh drops and reaps plus the one in the map, and each has one Ensure call |
| `SessionTheorems.NoResurrection` | internal/session/session.go:121-125 | a session out of the map never returns, and leaves at most once over all paths |
| `SessionTheorems.PublishedOnce` | internal/session/session.go:25-28 | a channel is closed once, and after that Endpoint and err never change |
| `SessionTheorems.GetReturnsEnsured` | internal/session/session.go:104-132 | every Get that is not cancelled returns, for its own id, what the one Ensure call of its session produced |
| `SessionTheorems.WaitersAgree` | internal/session/session.go:117-128 | all waiters on one session that are not cancelled get the same result |
| `SessionTheorems.ReapIsExact` | internal/session/session.go:155-190 | an entry is reaped exactly when ready, without a handler inside a tunnel and idle since the cutoff; all its activity is then at least one TTL old |
| `SessionTheorems.ActiveConnsAreTunnels` | internal/session/session.go:31-34 | the connection counter is the number of handlers between ConnOpened and ConnClosed on that session |
| `SessionTheorems.EachVictimDeletedOnce` | internal/session/session.go:193-198 | only reaped sessions are deleted, each at most once, and every one of them once the reaper rests |
| `SessionTheorems.HandlersStayWithTheirId` | internal/proxy/proxy.go:143-162 | a handler that sends requests or is inside a tunnel holds a session of its own id, also from the cooldown branch, and a good one has the endpoint that Ensure returned for it |
| `SessionNotes.CooldownIsRemembered` | internal/session/session.go:221-235 | in every reachable state an id is cooling down exactly if its last Refresh past the test, with no reap of the id since, was less than two seconds ago |
| `SessionNotes.RefreshNotes` | internal/session/session.go:221-235 | a Refresh past the test notes its time, dropping or not, and takes exactly the stale entry; one not past it changes nothing |
| `SessionNotes.NotesAreSpaced` | internal/session/session.go:217-235 | after a Refresh past the test, dropping or not, none drops a session of the id or gets past the test within two seconds, unless the id is reaped in between |
| `SessionNotes.NoteLostByReap` | internal/session/session.go:187-189 | under every idle TTL, a run in which a Refresh that found its stale session replaced is followed by a Refresh drop at the same instant |
| `SessionHandlers.NobodyIsStuck` | internal/session/session.go:90-235 | in every reachable state each thread can take its next step or waits for the mutex, whose holder can, or for a session, whose resolver can |
| `SessionHandlers.RefreshesOnce` | internal/proxy/proxy.go:93-121 | a handler calls Refresh at most once, in any run |
| `SessionHandlers.HttpMarksWhatItGot` | internal/proxy/proxy.go:155-210 | an HTTP handler marks the session it was given at once, and again at its end, whatever Refresh gave it in between; it does not end otherwise |
| `SessionHandlers.TunnelsCountAndMark` | internal/session/session.go:31-33 | a WebSocket handler marks the session on which it counts its tunnel |
| `SessionAtomic.ReconcileIsAtomic` | internal/session/session.go:87-101 | in any interleaving, when the reconciler has come to the end of its list every listed id has an entry, what it found is as it was, and nothing else was added |
| `SessionAtomic.ScanIsAtomic` | internal/session/session.go:170-191 | in any interleaving, when a scan has nothing left it has visited every entry, and took out of the map exactly its victims |
| `SessionAtomic.ScanIsSweep` | internal/session/session.go:170-191 | without unlocked steps in between, a scan in any order leaves what the order-free sweep leaves |
| `SessionRefresh.RefreshAsksExactly` | internal/session/session.go:221-237 | whatever others do before its handler goes on, a Refresh has a session created, with one Ensure call, exactly if it did not find an entry inside the cooldown and Get's lock finds none either |
| `SessionRefresh.RefreshLoadIsBounded` | internal/session/session.go:217-235 | over any stretch, the sessions Refresh had created for an id are at most its failure drops, Refresh drops and reaps there plus one; Refresh drops and reaps are bounded by the length of the stretch |
| `SessionRefresh.RefreshAsksWithoutBound` | internal/session/session.go:223-229 | for every idle TTL and every number, a run in which Refresh causes at least that many Ensure calls of one id at one instant with exactly one Refresh drop |
| `SessionRefresh.CallsDoNotKeepCooldown` | internal/session/session.go:39-42 | the promise that Refresh asks at most once per cooldown is false under every idle TTL |
| `SessionCooldown.DropsAreSpaced` | internal/session/session.go:170-190 | two Refresh drops of one id are at least min(cooldown, idle TTL) apart, although the reaper erases the cooldown entry, and two reaps one TTL |
| `SessionCooldown.DropsAreBounded` | internal/session/session.go:221-235 | a window with more than n Refresh drops, or reaps, of one id is at least n such gaps long |
| `SessionCooldown.DropsKeepCooldownExactly` | internal/session/session.go:187-189 | Refresh drops keep one cooldown apart over every run if and only if the idle TTL is at least the cooldown |
| `SessionCooldown.EarlySecondDrop` | internal/session/session.go:187-189 | a run, for every shorter TTL, in which two drops come within one cooldown |
| `SessionCooldown.DeleteCanOverlapEnsure` | internal/session/session.go:191-194 | a run in which the reaper's Delete and a new Ensure of the same id are in flight together |
| `SessionCooldown.CooldownCanReturnUnready` | internal/session/session.go:223-228 | a run in which Refresh returns a session whose Ensure has not been called |
| `Tunnel.DeliversInOrder` | internal/proxy/proxy.go:336-359 | each peer has been sent a prefix of the buffered bytes followed by the later ones, and all that was read unless a write failed; the upward copy reads the connection alone, so the drain before it must have been complete |
| `Tunnel.PumpsEndForCause` | internal/proxy/proxy.go:338-359 | a pump ends only after a failed write or the end of its source, and in the second case it has delivered all the buffered bytes and everything read up to that end; the handler closes only after a pump ended |
| `Tunnel.AllCanBeDelivered` | internal/proxy/proxy.go:336-367 | for all buffered and later bytes of both sides there is a run that delivers all of them and accounts for them |
| `Tunnel.PostNeverBlocks` | internal/proxy/proxy.go:337-359 | a pump always finds room in errc, and sends on it exactly once |
| `Tunnel.AccountsExactly` | internal/proxy/proxy.go:328-334 | when the accounting runs, both pumps are gone and the totals are the bytes delivered |
| `Tunnel.ShutdownCompletes` | internal/proxy/proxy.go:360-367 | once either pump has ended the handler is never stuck, and after its two closing steps at most 10 steps remain before exact accounting |
| `Routing.RouteRequest` | internal/proxy/proxy.go:398-405 | Host is the request's own target, the actor header is the endpoint's or absent, other headers stay |
| `Replay.ReadLimited` | internal/proxy/proxy.go:183-190 | for any chunk sizes, and for errors that come alone or with the last bytes, the first bytes up to the limit are read; an error is seen below the limit, may be seen at it, and is not seen beyond |
| `Replay.BufferBody` | internal/proxy/proxy.go:182-202 | the outgoing body still offers the client's bytes, and can be replayed exactly when it is within the cap; it is given up only if it breaks off at most one byte over the cap, and always if it does within the cap |
| `Replay.Outgoing` | internal/proxy/proxy.go:170-203 | the outgoing request has address, Host, actor and body as required, on a fresh copy |
| `Replay.RetryingRoundTrip` | internal/proxy/proxy.go:93-121 | one attempt as given; one Refresh exactly after a dial failure of a replayable request; a second attempt exactly if it succeeded, with the replay body, wholly routed to the new endpoint if that session was settled; at most one attempt gets past dialling; the request itself unchanged |
| `Replay.ReplayRoutedExactly` | internal/proxy/proxy.go:110-120 | replays take address, Host and actor from one endpoint, whatever the resolver does between the two reads, if and only if Refresh returned a settled session |
| `Replay.MixedReplay` | internal/proxy/proxy.go:118-119 | an instance of a replay to the zero address with the actor of a real endpoint |
| `Replay.HandleHttp` | internal/proxy/proxy.go:165-210 | for any body and any upstream: every attempt offers exactly the client's bytes, a body over 1 MiB is sent once, at most one attempt gets past dialling, the first one is wholly routed exactly if Connection does not list the actor header, the codes written are the interim ones and then the answer, 502 for a failure or a 101, or nothing for a client that went away; the first of them, or 200, is recorded |
| `Replay.StrippedActor` | internal/proxy/proxy.go:58-59 | an instance of a first attempt without its actor |
| `Replay.HandleWs` | internal/proxy/proxy.go:234-326 | dial, one Refresh, redial, upgrade and answer; what is sent goes to the dialled backend with its own address, Host and actor if the session was settled; the answer is read exactly if the request was written; after a 101 there is a splice if and only if the client connection was taken over, and it alone counts as a connection; a refusal keeps its status, except that an interim one ends as 200 |
| `Replay.UpgradeRoutedExactly` | internal/proxy/proxy.go:247-270 | upgrades after a Refresh are wholly routed to the address dialled if and only if the refreshed session was settled |
| `Substrate.Driver.GetOrCreate` | internal/backend/substrate.go:252-279 | which calls are made, in which order, after which answers |
| `Substrate.Driver.EnsureEgressPolicy` | internal/backend/substrate.go:165-193 | success exactly on a policy of the one rule of HTTP to the allowed hosts on port 80; a conflicting policy is refused, never replaced |
| `Substrate.Driver.WaitForRunning` | internal/backend/substrate.go:281-326 | one ResumeActor exactly when SUSPENDED is seen first, and a poll of a suspended actor only after it; each result only for its cause (observed RUNNING, CRASHED or DELETING, a failed call, the deadline passed, the context ended); the context is asked before each poll; at most 301 polls; terminates by the clock |
| `Substrate.Driver.WaitUpstreamReady` | internal/backend/substrate.go:211-250 | stops at the first answer from 200 to 499 other than 401, 403 and 421, after at most 152 probes; gives up only past its deadline or when the context ended, which is asked between two probes; terminates by the clock |
| `Substrate.AcceptedStatuses` | internal/backend/substrate.go:230-237 | which statuses count as an answer of the application |
| `Substrate.Driver.Ensure` | internal/backend/substrate.go:128-159 | the phases in order for the actor "pw-" + id, each only after the one before succeeded; cancelled exactly if the context ended at a select; the endpoint names that actor |
| `Substrate.EnsureTouchesOnlyItsOwn` | internal/backend/substrate.go:165-193 | with other clients acting in between, no existing template or policy is altered, and at most one actor and one policy are added, its own |
| `Substrate.SuccessMeansReady` | internal/backend/substrate.go:142-158 | success implies an actor of that name with its template and its exact policy at some call, RUNNING in the last answer about an actor before the probes, and an accepted probe, all for the actor the endpoint names |
| `Served.TemplateServedExactly` | internal/backend/substrate.go:128-159 | a successful Ensure has its own template in the store at the accepted probe if and only if other clients left it alone since getOrCreate's last call, or their last change to it put it back; in particular if they left it alone |
| `Served.PolicyServedExactly` | internal/backend/substrate.go:165-193 | the same of the allowlist policy, since ensureEgressPolicy's last call |
| `Served.NoAnswerKeepsTemplate` | internal/backend/substrate.go:134-158 | no first answer guarantees the own template at the accepted probe, RUNNING included; only CRASHED and DELETING do, because Ensure cannot succeed after them |
| `Served.ReplacedActor` | internal/backend/substrate.go:134-158 | for every other first answer, an Ensure that succeeds although every probe finds a foreign template and a foreign policy in the store |
| `Substrate.TargetIsInjective` | internal/backend/substrate.go:126-158 | different ids are routed to different actors |
| `Listing.List` | internal/backend/substrate.go:347-373 | page by page listing is the filtered, stripped flat list, for every finite chain of answers, whatever tokens repeat; each call passes on the token before |
| `Listing.FlatJoins` | internal/backend/substrate.go:347-373 | the pages are joined in the order in which they came |
| `Listing.ListedExactly` | internal/backend/substrate.go:358-366 | an id is listed exactly when an actor of the own template has the name "pw-" followed by it |
| `Listing.ListInvertsNaming` | internal/backend/substrate.go:126-126 | listing the actors made for some ids gives back those ids |
| `Listing.RestartRestoresSessions` | internal/session/session.go:79-102 | reconciling with a listing restores exactly one session for each distinct id that has an actor |
| `Diagnostics.ClaimsAreSpaced` | internal/identify/identify.go:180-193 | two successful claims of an address without a release in between are one TTL apart |
| `Diagnostics.ClaimSucceedsExactly` | internal/identify/identify.go:180-193 | in every reachable state a claim that reads the clock now succeeds if and only if every claim of the address that was not released since is at least ten minutes old |
| `Diagnostics.TimersSpareLiveClaims` | internal/identify/identify.go:195-201 | a timer never removes an entry that has not expired, over any order of claims and releases |
| `Diagnostics.EntriesAreNotRetained` | internal/identify/identify.go:40-43 | every stored entry has a timer, due within ten minutes, that will remove it, or one about to be armed |
| `Identify.Index.ClaimDiagnostic` | internal/identify/identify.go:184-193 | a claim succeeds exactly when there is no unexpired entry, and then stores its expiry |
| `Identify.Index.ExpireDiagnostic` | internal/identify/identify.go:195-201 | the timer removes only the entry with its own expiry |
| `Identify.Index.UpsertFromObj` | internal/identify/identify.go:260-278 | an event writes exactly when the pod has a label value and an address |
| `Identify.Index.DeleteFromObj` | internal/identify/identify.go:280-299 | a deletion or a tombstone of a pod with an address removes that address |
| `Identify.LastWriterWins` | internal/identify/identify.go:260-299 | the index answers what the last write about an address said |
| `Identify.UnwrittenIsAbsent` | internal/identify/identify.go:111-116 | an address that was never written is unknown |
| `Identify.NoEmptyIds` | internal/identify/identify.go:265-269 | the index never holds an empty id |
| `Identify.Index.LookupViaApi` | internal/identify/identify.go:118-178 | the answer is the first labelled pod's non-empty value; a claim is made exactly if there is none without an error, and the unlabelled query only under a successful one, which is given back if it fails |
| `Identify.Index.Lookup` | internal/identify/identify.go:80-109 | an address in the index is a hit at once; otherwise the first read that finds it or the first poll that gives a label decides, after one read without a client or 101 reads and 100 polls in vain it is a miss; exactly one kind is recorded, while other threads write to the index |
| `Isola.NameIsBounded` | internal/backend/isola.go:47-49 | names have at most 47 bytes, all of them letters, digits, '-' or '.' |
| `Isola.NameExactly` | internal/backend/isola.go:98-117 | a plain id of at most 44 bytes is its own name after "pw-"; every other one gets the first 22 digest bytes in hexadecimal digits, high digit first |
| `Isola.CollisionsExactly` | internal/backend/isola.go:98-117 | two ids share a name if and only if they are equal, both hashed with the same 22 digest bytes, or one is the other's 44 shown digits |
| `Isola.ReadLabels` | internal/backend/isola.go:198-203 | List returns the non-empty labels, in order |
| `Isola.ListedBack` | internal/backend/isola.go:191-217 | Ensure and then List: an id comes back, once, exactly if it is not empty and came first under its name; without collisions all non-empty ids do |
| `Isola.LabelsRoundTrip` | internal/backend/isola.go:119-131 | the labels hold exactly the ids that came first under their name, unhashed |

## Left out

- Tunnel: the pumps are a state machine over values, chunk by chunk, instead of goroutines that write shared integers; the memory model of Go's atomics is not part of it.
- Session counters and times are unbounded integers; the 32-bit range of activeConn is not modelled.
- Go's data races and wall-clock jumps: field accesses are atomic and there is one non-decreasing clock; a locked section of Refresh reads it once.
- The timeout of resolve's context and of the handlers' contexts: Ensure may answer with an error, and a Get may be cancelled, at any time.
- SessionTheorems.ReapIsExact: MarkActive reads the clock and stores it in one step. In the source another mark can fall in between, so that lastActive steps back and a later recorded activity may be less than one TTL old; the test itself and ActiveConnsAreTunnels do not depend on this.
- Replay.Upstream, Replay.Sessions, Replay.WsWorld: http.Transport, the network and Manager.Refresh as the proxy sees them answer anything; the session that Refresh returns is a fresh object whose endpoint its resolver writes at most once; of httputil.ReverseProxy only the removal of headers listed in Connection is modelled, not X-Forwarded-For or the streaming of responses, and that list is given as a set of names instead of being parsed.
- Replay.HandleHttp: upstream statuses below 100, on which net/http panics; the same holds for HandleWs.
- Replay.HandleWs: X-Forwarded-For on the upgrade, and the headers and body of a refused upgrade; TakeOver stands for hijacking and replaying the handshake together.
- Substrate.Driver.WaitForRunning: the last observed actor that is returned beside an error, and error texts.
- Substrate.Delete, NewSubstrate and the token source: a two-call sequence, configuration checks and file access.
- Listing.List: a server whose pages never end; the source does not terminate on one either.
- Diagnostics.ClaimsAreSpaced: for claims that read the clock before a delay, the distance is from the first one's reading to the second one's lock, because the source reads the clock before it locks.
- Identify: the informer's start-up, its readiness flag and the agreement of the index with the live pod set, which the code does not establish.
- Isola.CollisionsExactly: strict validity as a DNS-1123 name, which the code does not check beyond the character set; waitForReady, buildCR's other fields and Delete.
- The karssandbox and sandboxclaim backends, configuration, metrics, logging and main: get-or-create with fewer states, single-branch checks, and wiring.
