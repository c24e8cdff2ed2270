/** Paginated listing in internal/backend/substrate.go, and the listing that startup reconciles against. */
module Listing {
  import opened Common
  import ControlServer
  import Substrate
  import SessionCore

  type Template = ControlServer.Template
  type Code = ControlServer.Code

  const PREFIX := Substrate.PREFIX

  datatype Listed = Listed(name: string, template: Template)

  datatype Page = Page(actors: seq<Listed>, next: string)

  type Answer = Result<Page, Code>

  /** The server answers each call anew, whatever token it is given. `asked` are the tokens it has been given. */
  class Pager {
    const answers: seq<Answer>
    var asked: seq<string>

    constructor (answers: seq<Answer>)
      ensures this.answers == answers && asked == []
    {
      this.answers, asked := answers, [];
    }

    method ListActors(token: string) returns (r: Answer)
      requires |asked| < |answers|
      modifies this`asked
      ensures asked == old(asked) + [token] && r == answers[|old(asked)|]
    {
      r := answers[|asked|];
      asked := asked + [token];
    }
  }

  /** One finite listing: every answer but the last is a page with a next token, and the last one is not. */
  predicate IsChain(answers: seq<Answer>) {
    && answers != []
    && forall k :: 0 <= k < |answers| ==> (k < |answers| - 1 <==> answers[k].Ok? && answers[k].value.next != "")
  }

  /** The token of a call: none at first, and then the one that the answer before named. */
  function TokenAt(answers: seq<Answer>, k: nat): string
    requires k <= |answers|
  {
    if k == 0 || answers[k - 1].Err? then "" else answers[k - 1].value.next
  }

  /** The tokens of the first `n` calls. */
  function Tokens(answers: seq<Answer>, n: nat): seq<string>
    requires n <= |answers|
  {
    if n == 0 then [] else Tokens(answers, n - 1) + [TokenAt(answers, n - 1)]
  }

  lemma {:induction false} TokensAre(answers: seq<Answer>, n: nat)
    requires n <= |answers|
    ensures |Tokens(answers, n)| == n && forall k :: 0 <= k < n ==> Tokens(answers, n)[k] == TokenAt(answers, k)
    decreases n
  {
    if n > 0 { TokensAre(answers, n - 1); }
  }

  /** The pages of a listing are joined in the order in which they came. */
  lemma {:induction false} FlatJoins(xs: seq<Answer>, ys: seq<Answer>)
    ensures Flat(xs + ys) == Flat(xs) + Flat(ys)
    decreases |ys|
  {
    if ys == [] {
      assert xs + ys == xs;
    } else {
      assert (xs + ys)[..|xs + ys| - 1] == xs + ys[..|ys| - 1];
      FlatJoins(xs, ys[..|ys| - 1]);
    }
  }

  /** A page contributes all its actors as they are, an error none. */
  lemma FlatOfOne(page: Page, code: Code)
    ensures Flat([Ok(page)]) == page.actors && Flat([Err(code)]) == []
  {
    var one: seq<Answer>, none: seq<Answer> := [Ok(page)], [Err(code)];
    assert one[..0] == [] && none[..0] == [];
  }

  /** The actors of the pages, in order, as one list. */
  function Flat(answers: seq<Answer>): seq<Listed>
    decreases |answers|
  {
    if answers == [] then []
    else
      var r := answers[|answers| - 1];
      Flat(answers[..|answers| - 1]) + (if r.Ok? then r.value.actors else [])
  }

  /** The playwright-ids among some actors: those of the own template and the own naming, stripped. */
  function Ids(own: Template, actors: seq<Listed>): seq<string>
    decreases |actors|
  {
    if actors == [] then []
    else
      var front, a := Ids(own, actors[..|actors| - 1]), actors[|actors| - 1];
      if a.template == own && PREFIX <= a.name then front + [a.name[|PREFIX|..]] else front
  }

  lemma {:induction false} IdsAppend(own: Template, xs: seq<Listed>, ys: seq<Listed>)
    ensures Ids(own, xs + ys) == Ids(own, xs) + Ids(own, ys)
    decreases |ys|
  {
    if ys == [] {
      assert xs + ys == xs;
    } else {
      var front, a := ys[..|ys| - 1], ys[|ys| - 1];
      assert (xs + ys)[..|xs + ys| - 1] == xs + front;
      IdsAppend(own, xs, front);
    }
  }

  lemma IdsSnoc(own: Template, actors: seq<Listed>, i: nat)
    requires i < |actors|
    ensures Ids(own, actors[..i + 1]) == Ids(own, actors[..i])
      + (if actors[i].template == own && PREFIX <= actors[i].name then [actors[i].name[|PREFIX|..]] else [])
  {
    assert actors[..i + 1][..i] == actors[..i];
  }

  lemma PageDone(own: Template, answers: seq<Answer>, k: nat)
    requires k < |answers| && answers[k].Ok?
    ensures var actors := answers[k].value.actors;
      Ids(own, Flat(answers[..k + 1])) == Ids(own, Flat(answers[..k])) + Ids(own, actors)
  {
    var actors := answers[k].value.actors;
    assert answers[..k + 1][..k] == answers[..k];
    IdsAppend(own, Flat(answers[..k]), actors);
  }

  /** The loop over one page. */
  method AppendPage(own: Template, before: seq<string>, actors: seq<Listed>) returns (ids: seq<string>)
    ensures ids == before + Ids(own, actors)
  {
    ids := before;
    for i := 0 to |actors|
      invariant ids == before + Ids(own, actors[..i])
    {
      var a := actors[i];
      IdsSnoc(own, actors, i);
      if a.template.atespace != own.atespace || a.template.name != own.name {
        continue;
      }
      if PREFIX <= a.name {
        ids := ids + [a.name[|PREFIX|..]];
      }
    }
    assert actors[..|actors|] == actors;
  }

  /**
   Listing page by page is filtering and stripping the one flat list, for every finite chain of answers, empty
   pages and repeated tokens among them; each call passes on the token of the answer before.
   */
  method List(own: Template, server: Pager) returns (res: Result<seq<string>, Code>)
    requires server.asked == [] && IsChain(server.answers)
    modifies server
    ensures var last := server.answers[|server.answers| - 1];
      res == if last.Err? then Err(last.error) else Ok(Ids(own, Flat(server.answers)))
    ensures server.asked == Tokens(server.answers, |server.answers|)
    ensures |server.asked| == |server.answers| && server.asked[0] == ""
    ensures forall k :: 0 < k < |server.asked| ==>
      server.answers[k - 1].Ok? && server.asked[k] == server.answers[k - 1].value.next
  {
    var ids: seq<string> := [];
    var pageToken := "";
    ghost var answers, k := server.answers, 0;
    TokensAre(answers, |answers|);
    while true
      invariant |server.asked| == k < |answers| && pageToken == TokenAt(answers, k)
      invariant server.asked == Tokens(answers, k)
      invariant ids == Ids(own, Flat(answers[..k]))
      decreases |answers| - k
    {
      var resp := server.ListActors(pageToken);
      if resp.Err? {
        return Err(resp.error);
      }
      ids := AppendPage(own, ids, resp.value.actors);
      PageDone(own, answers, k);
      if resp.value.next == "" {
        assert answers[..k + 1] == answers;
        return Ok(ids);
      }
      pageToken, k := resp.value.next, k + 1;
    }
  }

  /** The listing contains an id exactly when an actor of the own template carries the name made for it. */
  lemma {:induction false} ListedExactly(own: Template, actors: seq<Listed>, x: string)
    ensures x in Ids(own, actors) <==> Listed("pw-" + x, own) in actors
    decreases |actors|
  {
    if actors != [] {
      var front, a := actors[..|actors| - 1], actors[|actors| - 1];
      ListedExactly(own, front, x);
      assert actors == front + [a];
      if PREFIX <= a.name { assert a.name == PREFIX + a.name[|PREFIX|..]; }
      assert Substrate.ActorId(x)[|PREFIX|..] == x;
    }
  }

  function MadeFor(own: Template, ids: seq<string>): seq<Listed>
    decreases |ids|
  {
    if ids == [] then [] else MadeFor(own, ids[..|ids| - 1]) + [Listed(Substrate.ActorId(ids[|ids| - 1]), own)]
  }

  /** Listing the actors that were made for some ids gives back those ids, in order. */
  lemma {:induction false} ListInvertsNaming(own: Template, ids: seq<string>)
    ensures Ids(own, MadeFor(own, ids)) == ids
    decreases |ids|
  {
    if ids != [] {
      var front, x := ids[..|ids| - 1], ids[|ids| - 1];
      var a := Listed(Substrate.ActorId(x), own);
      ListInvertsNaming(own, front);
      assert MadeFor(own, ids)[..|MadeFor(own, ids)| - 1] == MadeFor(own, front);
      assert a.name[|PREFIX|..] == x;
      assert front + [x] == ids;
    }
  }

  /** After a restart, reconciling against the listing restores one session for each distinct id that has an actor. */
  lemma RestartRestoresSessions(own: Template, actors: seq<Listed>, at: int, x: string)
    ensures x in SessionCore.ReconcileAll(SessionCore.EMPTY, Ids(own, actors), at).sessions
       <==> Listed(Substrate.ActorId(x), own) in actors
    ensures |SessionCore.ReconcileAll(SessionCore.EMPTY, Ids(own, actors), at).recs|
         == |SessionCore.ReconcileAll(SessionCore.EMPTY, Ids(own, actors), at).sessions|
  {
    var ids := Ids(own, actors);
    SessionCore.ReconcileAddsExactly(SessionCore.EMPTY, ids, at);
    ListedExactly(own, actors, x);
    var f := SessionCore.Fresh(SessionCore.EMPTY, ids);
    var d := SessionCore.ReconcileAll(SessionCore.EMPTY, ids, at);
    assert d.sessions.Keys == set id | id in f;
    DistinctSize(f);
  }

  lemma {:induction false} DistinctSize(xs: seq<string>)
    requires forall i, j :: 0 <= i < j < |xs| ==> xs[i] != xs[j]
    ensures |set x | x in xs| == |xs|
    decreases |xs|
  {
    if xs != [] {
      var front, x := xs[..|xs| - 1], xs[|xs| - 1];
      DistinctSize(front);
      assert (set y | y in xs) == (set y | y in front) + {x};
      assert x !in front;
    }
  }
}
