/** The pod index and the lookup loop of internal/identify/identify.go. */
module Identify {
  import opened Common
  import Diagnostics

  datatype Pod = Pod(labels: map<string, string>, ip: string)

  /** What an informer hands to its event handlers. */
  datatype Obj = PodObj(pod: Pod) | Tombstone(last: Obj) | OtherObj

  /** One write to the index under its lock. */
  datatype Op = Put(ip: string, id: string) | Del(ip: string)

  function LabelOf(p: Pod, key: string): string {
    if key in p.labels then p.labels[key] else ""
  }

  /** The write an add or update event causes, if any. */
  function UpsertOp(key: string, o: Obj): Option<Op> {
    if o.PodObj? && LabelOf(o.pod, key) != "" && o.pod.ip != "" then Some(Put(o.pod.ip, LabelOf(o.pod, key))) else None
  }

  /** The write a delete event causes, if any; a tombstone counts as the pod it holds. */
  function DeleteOp(o: Obj): Option<Op> {
    var p := if o.Tombstone? then o.last else o;
    if p.PodObj? && p.pod.ip != "" then Some(Del(p.pod.ip)) else None
  }

  function Write(m: map<string, string>, op: Op): map<string, string> {
    match op
    case Put(ip, id) => m[ip := id]
    case Del(ip) => m - {ip}
  }

  function Fold(ops: seq<Op>): map<string, string>
    decreases |ops|
  {
    if ops == [] then map[] else Write(Fold(ops[..|ops| - 1]), ops[|ops| - 1])
  }

  predicate Named(ops: seq<Op>) {
    forall op <- ops :: op.Put? ==> op.id != ""
  }

  /** The write at index k is the last one about `ip`. */
  predicate IsLast(ops: seq<Op>, ip: string, k: nat) {
    k < |ops| && ops[k].ip == ip && forall j :: k < j < |ops| ==> ops[j].ip != ip
  }

  /** The index answers with what the last write about an address said: an id after a put, nothing after a delete. */
  lemma {:induction false} LastWriterWins(ops: seq<Op>, ip: string, k: nat)
    requires IsLast(ops, ip, k)
    ensures ops[k].Put? ==> ip in Fold(ops) && Fold(ops)[ip] == ops[k].id
    ensures ops[k].Del? ==> ip !in Fold(ops)
    decreases |ops|
  {
    if k < |ops| - 1 {
      LastWriterWins(ops[..|ops| - 1], ip, k);
    }
  }

  lemma {:induction false} UnwrittenIsAbsent(ops: seq<Op>, ip: string)
    requires forall op <- ops :: op.ip != ip
    ensures ip !in Fold(ops)
    decreases |ops|
  {
    if ops != [] {
      assert ops[|ops| - 1] in ops;
      UnwrittenIsAbsent(ops[..|ops| - 1], ip);
    }
  }

  /** No id in the index is empty, whatever the writes. */
  lemma {:induction false} NoEmptyIds(ops: seq<Op>)
    requires Named(ops)
    ensures forall ip <- Fold(ops) :: Fold(ops)[ip] != ""
    decreases |ops|
  {
    if ops != [] {
      assert ops[|ops| - 1] in ops;
      NoEmptyIds(ops[..|ops| - 1]);
    }
  }

  lemma FoldSnoc(ops: seq<Op>, op: Op)
    ensures Fold(ops + [op]) == Write(Fold(ops), op)
  {
    assert (ops + [op])[..|ops|] == ops;
  }

  datatype Kind = CacheHit | ApiFallback | Miss

  /** One List call to the API server, with or without the label selector, and its answer. */
  datatype Listing = Listing(labelled: bool, pods: Result<seq<Pod>, string>)

  /** The answers to the calls with the selector, one a poll. */
  function Polls(made: seq<Listing>): seq<Result<seq<Pod>, string>>
    decreases |made|
  {
    if made == [] then []
    else Polls(made[..|made| - 1]) + if made[|made| - 1].labelled then [made[|made| - 1].pods] else []
  }

  lemma {:induction false} PollsAppend(xs: seq<Listing>, ys: seq<Listing>)
    ensures Polls(xs + ys) == Polls(xs) + Polls(ys)
    decreases |ys|
  {
    if ys == [] {
      assert xs + ys == xs;
    } else {
      assert (xs + ys)[..|xs + ys| - 1] == xs + ys[..|ys| - 1];
      PollsAppend(xs, ys[..|ys| - 1]);
    }
  }

  /** The id that an answer gives: the non-empty label of its first pod. */
  function Answered(key: string, pods: Result<seq<Pod>, string>): Option<string> {
    if pods.Ok? && pods.value != [] && key in pods.value[0].labels && pods.value[0].labels[key] != ""
    then Some(pods.value[0].labels[key]) else None
  }

  const MAX_LOOKUP_POLLS := 100
  /** 100 ms. */
  const POLL_SLEEP := 100_000_000

  class Index {
    const labelKey: string
    /** A client and a namespace are configured. */
    const hasClient: bool
    var byPodIp: map<string, string>
    var diagnosedIps: map<string, int>
    var now: int
    /** What the metrics have counted for this thread's lookups. */
    var recorded: seq<Kind>
    /** What this thread has read from the index, listed, and claimed. */
    ghost var found: seq<Option<string>>
    ghost var listed: seq<Listing>
    ghost var claims: seq<bool>
    /** Every write so far, in lock order. */
    ghost var ops: seq<Op>

    ghost predicate Valid()
      reads this
    {
      byPodIp == Fold(ops) && Named(ops)
    }

    constructor (labelKey: string, hasClient: bool)
      ensures Valid() && ops == [] && this.labelKey == labelKey && this.hasClient == hasClient
    {
      this.labelKey, this.hasClient := labelKey, hasClient;
      byPodIp, diagnosedIps, now, ops := map[], map[], 0, [];
      recorded, found, listed, claims := [], [], [], [];
    }

    method UpsertFromObj(o: Obj)
      requires Valid()
      modifies this`byPodIp, this`ops
      ensures Valid()
      ensures ops == old(ops) + if UpsertOp(labelKey, o).Some? then [UpsertOp(labelKey, o).value] else []
      ensures byPodIp ==
        if o.PodObj? && o.pod.ip != "" && labelKey in o.pod.labels && o.pod.labels[labelKey] != ""
        then old(byPodIp)[o.pod.ip := o.pod.labels[labelKey]] else old(byPodIp)
    {
      if !o.PodObj? {
        return;
      }
      var id := LabelOf(o.pod, labelKey);
      if id == "" {
        return;
      }
      if o.pod.ip == "" {
        return;
      }
      FoldSnoc(ops, Put(o.pod.ip, id));
      byPodIp := byPodIp[o.pod.ip := id];
      ops := ops + [Put(o.pod.ip, id)];
    }

    method DeleteFromObj(o: Obj)
      requires Valid()
      modifies this`byPodIp, this`ops
      ensures Valid()
      ensures ops == old(ops) + if DeleteOp(o).Some? then [DeleteOp(o).value] else []
      ensures var p := if o.Tombstone? then o.last else o;
        byPodIp == if p.PodObj? && p.pod.ip != "" then old(byPodIp) - {p.pod.ip} else old(byPodIp)
    {
      var p := o;
      if p.Tombstone? {
        p := p.last;
      }
      if !p.PodObj? {
        return;
      }
      if p.pod.ip == "" {
        return;
      }
      FoldSnoc(ops, Del(p.pod.ip));
      byPodIp := byPodIp - {p.pod.ip};
      ops := ops + [Del(p.pod.ip)];
    }

    /** The locked section of claimDiagnostic. */
    method ClaimDiagnostic(ip: string, t: int) returns (ok: bool)
      modifies this`diagnosedIps, this`claims
      ensures ok == Diagnostics.Claimable(old(diagnosedIps), ip, t)
      ensures diagnosedIps == Diagnostics.Claim(old(diagnosedIps), ip, t)
      ensures ok <==> ip !in old(diagnosedIps) || old(diagnosedIps)[ip] <= t
      ensures diagnosedIps == if ok then old(diagnosedIps)[ip := t + 600_000_000_000] else old(diagnosedIps)
      ensures claims == old(claims) + [ok]
    {
      var expiresAt := t + Diagnostics.DIAGNOSTIC_TTL;
      if ip in diagnosedIps && diagnosedIps[ip] > t {
        claims := claims + [false];
        return false;
      }
      claims := claims + [true];
      diagnosedIps := diagnosedIps[ip := expiresAt];
      return true;
    }

    /** The function of a claim's timer. */
    method ExpireDiagnostic(ip: string, expiresAt: int)
      modifies this`diagnosedIps
      ensures diagnosedIps == Diagnostics.Fire(old(diagnosedIps), ip, expiresAt)
      ensures diagnosedIps == if ip in old(diagnosedIps) && old(diagnosedIps)[ip] == expiresAt
                              then old(diagnosedIps) - {ip} else old(diagnosedIps)
    {
      if ip in diagnosedIps && diagnosedIps[ip] == expiresAt {
        diagnosedIps := diagnosedIps - {ip};
      }
    }

    method ReleaseDiagnostic(ip: string)
      modifies this`diagnosedIps
      ensures diagnosedIps == Diagnostics.Release(old(diagnosedIps), ip)
      ensures diagnosedIps == old(diagnosedIps) - {ip}
    {
      diagnosedIps := diagnosedIps - {ip};
    }

    /** Time passes while other goroutines write to the index, claim, release and let timers fire. */
    method Interfere()
      requires Valid()
      modifies this`now, this`diagnosedIps, this`byPodIp, this`ops
      ensures Valid() && now >= old(now) && old(ops) <= ops
    {
      var d: int :| d >= 0;
      now := now + d;
      diagnosedIps := *;
      var writes: int :| writes >= 0;
      for i := 0 to writes
        invariant Valid() && now >= old(now) && old(ops) <= ops
      {
        var op: Op := *;
        if op.Put? ==> op.id != "" {
          FoldSnoc(ops, op);
          byPodIp := Write(byPodIp, op);
          ops := ops + [op];
        }
      }
    }

    method LookupCache(ip: string) returns (id: Option<string>)
      modifies this`found
      ensures id == if ip in byPodIp then Some(byPodIp[ip]) else None
      ensures found == old(found) + [id]
    {
      id := if ip in byPodIp then Some(byPodIp[ip]) else None;
      found := found + [id];
    }

    /** One List call to the API server: it answers anything. */
    method ListPods(labelled: bool) returns (r: Result<seq<Pod>, string>)
      modifies this`listed
      ensures listed == old(listed) + [Listing(labelled, r)]
    {
      r := *;
      listed := listed + [Listing(labelled, r)];
    }

    /**
     What one API poll may do: an answer is the non-empty label of the first labelled pod. A claim is made
     exactly if there is none without an error, and the second, unlabelled List only under a claim that
     succeeded, and only if there was no labelled pod at all.
     */
    predicate PollSpec(id: Option<string>, made: seq<Listing>, claimed: seq<bool>) {
      && 1 <= |made| <= 2 && |claimed| <= 1
      && made[0].labelled && (|made| == 2 ==> !made[1].labelled)
      && id == Answered(labelKey, made[0].pods)
      && (claimed != [] <==> made[0].pods.Ok? && id.None?)
      && (|made| == 2 <==> made[0].pods == Ok([]) && claimed == [true])
    }

    /** lookupViaAPI. */
    method LookupViaApi(ip: string) returns (id: Option<string>, ghost made: seq<Listing>, ghost claimed: seq<bool>)
      requires Valid()
      modifies this`now, this`diagnosedIps, this`byPodIp, this`ops, this`listed, this`claims
      ensures Valid() && now >= old(now) && old(ops) <= ops
      ensures listed == old(listed) + made && claims == old(claims) + claimed
      ensures PollSpec(id, made, claimed)
      ensures |made| == 2 && made[1].pods.Err? ==> ip !in diagnosedIps
    {
      Interfere();
      claimed := [];
      var pods := ListPods(true);
      made := [Listing(true, pods)];
      if pods.Err? {
        id := None;
        return;
      }
      if |pods.value| > 0 {
        var text := LabelOf(pods.value[0], labelKey);
        if text == "" {
          var warn := ClaimDiagnostic(ip, now);
          claimed := [warn];
          id := None;
          return;
        }
        id := Some(text);
        return;
      }
      id := None;
      var ok := ClaimDiagnostic(ip, now);
      claimed := [ok];
      if !ok {
        return;
      }
      Interfere();
      var all := ListPods(false);
      made := made + [Listing(false, all)];
      if all.Err? {
        ReleaseDiagnostic(ip);
      }
    }

    /** The answer `id` for `ip` was in the index at some moment since the first `n` writes. */
    ghost predicate WasIndexed(ip: string, id: string, n: nat)
      reads this
    {
      exists k :: n <= k <= |ops| && ip in Fold(ops[..k]) && Fold(ops[..k])[ip] == id
    }

    /** What the index holds now was in it since any earlier number of writes, and is no empty id. */
    lemma IndexedNow(ip: string, n: nat)
      requires Valid() && ip in byPodIp && n <= |ops|
      ensures WasIndexed(ip, byPodIp[ip], n) && byPodIp[ip] != ""
    {
      NoEmptyIds(ops);
      assert ops[..|ops|] == ops;
    }

    /** The write of an answer from the API, under the lock. */
    method Store(ip: string, id: string)
      requires Valid() && id != ""
      modifies this`byPodIp, this`ops
      ensures Valid() && byPodIp == old(byPodIp)[ip := id] && ops == old(ops) + [Put(ip, id)]
    {
      FoldSnoc(ops, Put(ip, id));
      byPodIp := byPodIp[ip := id];
      ops := ops + [Put(ip, id)];
    }

    method Record(kind: Kind)
      modifies this`recorded
      ensures recorded == old(recorded) + [kind]
    {
      recorded := recorded + [kind];
    }

    /**
     What the reads of the index `seen`, one before everything and one before each poll, and the API calls
     `made` of a Lookup say about its answer.
     */
    ghost predicate LookupSpec(id: Option<string>, kind: Kind, seen: seq<Option<string>>, made: seq<Listing>) {
      var polls := Polls(made);
      && seen != [] && |polls| <= 100
      && (forall k :: 0 <= k < |seen| - 1 ==> seen[k] == None)
      && (forall k :: 0 <= k < |polls| - 1 ==> Answered(labelKey, polls[k]) == None)
      && (!hasClient ==> |seen| == 1 && made == [])
      && match kind
         case CacheHit =>
           && id.Some? && id == seen[|seen| - 1] && (|seen| == 1 ==> made == [])
           && (polls == [] || Answered(labelKey, polls[|polls| - 1]) == None)
           && (|seen| > 1 ==> |seen| == |polls| + 2)
         case ApiFallback =>
           && id.Some? && seen[|seen| - 1] == None && |seen| == |polls| + 1 && polls != []
           && id == Answered(labelKey, polls[|polls| - 1])
         case Miss =>
           && id == None && seen[|seen| - 1] == None
           && (hasClient ==> |polls| == 100 && |seen| == 101 && Answered(labelKey, polls[99]) == None)
    }

    /** After `k` rounds, no read and no poll has found anything. */
    ghost predicate InVain(seen: seq<Option<string>>, made: seq<Listing>, k: nat) {
      && |seen| == k + 1 && |Polls(made)| == k
      && (forall j :: 0 <= j < |seen| ==> seen[j] == None)
      && forall j :: 0 <= j < k ==> Answered(labelKey, Polls(made)[j]) == None
    }

    lemma RoundEnds(seen: seq<Option<string>>, made: seq<Listing>, k: nat, id: Option<string>, cached: Option<string>,
                    more: seq<Listing>)
      requires hasClient && k < 100 && InVain(seen, made, k)
      requires if cached.Some? then id == cached && more == []
               else |Polls(more)| == 1 && id == Answered(labelKey, Polls(more)[0])
      ensures id.Some? ==>
        LookupSpec(id, if cached.Some? then CacheHit else ApiFallback, seen + [cached], made + more)
      ensures id.None? ==> InVain(seen + [cached], made + more, k + 1)
    {
      PollsAppend(made, more);
    }

    /** One round of Lookup's loop without its sleep: a read of the index, and a poll if that finds nothing. */
    method Round(ip: string, ghost n: nat)
      returns (id: Option<string>, how: Kind, ghost cached: Option<string>, ghost more: seq<Listing>)
      requires Valid() && n <= |ops|
      modifies this`now, this`diagnosedIps, this`byPodIp, this`ops, this`found, this`listed, this`claims
      ensures Valid() && old(ops) <= ops && now >= old(now)
      ensures found == old(found) + [cached] && listed == old(listed) + more
      ensures cached.Some? ==> id == cached && how == CacheHit && more == []
      ensures cached.None? ==> |Polls(more)| == 1 && id == Answered(labelKey, Polls(more)[0]) && how == ApiFallback
      ensures id.Some? ==> id.value != ""
      ensures cached.Some? ==> WasIndexed(ip, cached.value, n)
      ensures cached.None? && id.Some? ==> |ops| > |old(ops)| && ops[|ops| - 1] == Put(ip, id.value)
    {
      Interfere();
      id := LookupCache(ip);
      cached, how, more := id, CacheHit, [];
      if id.Some? {
        IndexedNow(ip, n);
        return;
      }
      ghost var claimed;
      id, more, claimed := LookupViaApi(ip);
      PollsOfOne(id, more, claimed);
      how := ApiFallback;
      if id.Some? {
        Interfere();
        Store(ip, id.value);
      }
    }

    /**
     Lookup. It records exactly one kind. An address in the index is a hit at once. Otherwise it ends with the
     first read of the index that finds the address, or the first poll that finds a label, which it writes to
     the index as the last thing it does; and with a miss only after one read without a client, and with one
     after 100 polls and 101 reads in vain, and at least 100 sleeps.
     */
    method Lookup(ip: string)
      returns (id: Option<string>, ghost kind: Kind, ghost seen: seq<Option<string>>, ghost made: seq<Listing>)
      requires Valid()
      modifies this
      ensures Valid() && old(ops) <= ops
      ensures recorded == old(recorded) + [kind] && found == old(found) + seen && listed == old(listed) + made
      ensures ip in old(byPodIp) ==>
        kind == CacheHit && id == Some(old(byPodIp)[ip]) && seen == [id] && made == [] && ops == old(ops)
        && diagnosedIps == old(diagnosedIps)
      ensures LookupSpec(id, kind, seen, made)
      ensures id.Some? ==> id.value != ""
      ensures kind == CacheHit ==> WasIndexed(ip, id.value, |old(ops)|)
      ensures kind == ApiFallback ==> |ops| > |old(ops)| && ops[|ops| - 1] == Put(ip, id.value)
      ensures kind == Miss && hasClient ==> now >= old(now) + 10_000_000_000
    {
      ghost var n := |ops|;
      made := [];
      id := LookupCache(ip);
      seen := [id];
      if id.Some? {
        IndexedNow(ip, n);
        Record(CacheHit);
        kind := CacheHit;
        return;
      }
      if !hasClient {
        Record(Miss);
        kind := Miss;
        return;
      }
      id, kind, seen, made := PollLoop(ip, n, seen);
    }

    /** The polling loop of Lookup, after a first read of the index in vain, and what it records. */
    method PollLoop(ip: string, ghost n: nat, ghost first: seq<Option<string>>)
      returns (id: Option<string>, ghost kind: Kind, ghost seen: seq<Option<string>>, ghost made: seq<Listing>)
      requires Valid() && hasClient && n <= |ops| && first == [None]
      modifies this
      ensures Valid() && old(ops) <= ops
      ensures recorded == old(recorded) + [kind] && listed == old(listed) + made
      ensures first <= seen && found == old(found) + seen[1..]
      ensures LookupSpec(id, kind, seen, made)
      ensures id.Some? ==> id.value != ""
      ensures kind == CacheHit ==> WasIndexed(ip, id.value, n)
      ensures kind == ApiFallback ==> |ops| > |old(ops)| && ops[|ops| - 1] == Put(ip, id.value)
      ensures kind == Miss ==> now >= old(now) + 10_000_000_000
    {
      seen, made := first, [];
      for k := 0 to MAX_LOOKUP_POLLS
        invariant Valid() && old(ops) <= ops && recorded == old(recorded)
        invariant first <= seen && found == old(found) + seen[1..] && listed == old(listed) + made
        invariant InVain(seen, made, k) && now >= old(now) + k * POLL_SLEEP
      {
        var how;
        ghost var cached, more;
        id, how, cached, more := Round(ip, n);
        RoundEnds(seen, made, k, id, cached, more);
        assert (seen + [cached])[1..] == seen[1..] + [cached];
        seen, made := seen + [cached], made + more;
        if id.Some? {
          kind := how;
          Record(how);
          return;
        }
        var late: int :| late >= 0;
        now := now + POLL_SLEEP + late;
      }
      id := None;
      Record(Miss);
      kind := Miss;
    }

    lemma PollsOfOne(id: Option<string>, made: seq<Listing>, claimed: seq<bool>)
      requires PollSpec(id, made, claimed)
      ensures Polls(made) == [made[0].pods]
    {
      assert made[..1] == [made[0]] && Polls([made[0]]) == Polls([]) + [made[0].pods];
      if |made| == 2 { assert made == [made[0]] + [made[1]]; }
    }
  }
}
