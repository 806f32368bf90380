/** When the tool cache tells the truth, in a world that only the mutating tools change. */
module ToolStaleness {
  import opened Wrappers
  import opened ToolCalls

  datatype Request = Ask(tool: string, args: Args) | Forget(tool: string, args: Args) | ForgetAll

  /** What a tool returns after so many calls of mutating tools. */
  type World = (nat, string, Args) -> Outcome

  function Version(requests: seq<Request>): nat {
    if requests == [] then 0
    else
      var last := requests[|requests| - 1];
      Version(requests[..|requests| - 1]) + if last.Ask? && Mutates(last.tool) then 1 else 0
  }

  /** The operations the requests come to in a world. */
  ghost function Played(world: World, requests: seq<Request>): (ops: seq<Op>)
    ensures |ops| == |requests|
  {
    if requests == [] then []
    else
      var earlier := requests[..|requests| - 1];
      Played(world, earlier) + [
        match requests[|requests| - 1]
        case Ask(tool, args) => Call(tool, args, world(Version(earlier), tool, args))
        case Forget(tool, args) => Invalidate(tool, args)
        case ForgetAll => Clear ]
  }

  predicate Drops(r: Request, tool: string, args: Args) {
    r.ForgetAll? || r == Forget(tool, args)
  }

  /** The call at `i` is the one asked about, and it was not forgotten since. */
  ghost predicate Remembers(requests: seq<Request>, i: nat, tool: string, args: Args) {
    i < |requests| && requests[i] == Ask(tool, args) &&
    forall j :: i < j < |requests| ==> !Drops(requests[j], tool, args)
  }

  /** A mutating tool was called after a call that is still remembered. */
  ghost predicate ChangedSince(requests: seq<Request>, tool: string, args: Args) {
    exists i, j :: 0 <= i < j < |requests| && Remembers(requests, i, tool, args) &&
                   requests[j].Ask? && Mutates(requests[j].tool)
  }

  /** The cache began with a result for the call, and it was never forgotten. */
  ghost predicate Inherited(start: Store, requests: seq<Request>, tool: string, args: Args) {
    Lookup(start, tool, args) != Null && forall j :: 0 <= j < |requests| ==> !Drops(requests[j], tool, args)
  }

  /** The next call is answered as if there were no cache. */
  ghost predicate AnsweredTruly(start: Store, world: World, requests: seq<Request>, tool: string, args: Args) {
    var outcome := world(Version(requests), tool, args);
    var answer := Answer(After(start, Played(world, requests)), tool, args, outcome);
    answer.Some? && answer.value.(cacheHit := false) == Uncached(outcome)
  }

  ghost predicate ForgetsKnownTools(requests: seq<Request>) {
    forall i :: 0 <= i < |requests| && requests[i].Forget? ==> Registered(requests[i].tool)
  }

  /** In every world that only mutating tools change a call is answered truly, if and
      only if no mutating tool was called since the call was last remembered, and no
      result was inherited for it. */
  lemma TrueInEveryWorldIff(start: Store, requests: seq<Request>, tool: string, args: Args)
    requires Cacheable(tool) && ForgetsKnownTools(requests)
    ensures (forall world :: AnsweredTruly(start, world, requests, tool, args)) <==>
              !ChangedSince(requests, tool, args) && !Inherited(start, requests, tool, args)
  {
    if Inherited(start, requests, tool, args) {
      InheritedIsStale(start, requests, tool, args);
    } else if ChangedSince(requests, tool, args) {
      ChangedIsStale(start, requests, tool, args);
    } else {
      forall world ensures AnsweredTruly(start, world, requests, tool, args) {
        TrueByFirst(start, world, requests, tool, args);
        UnchangedSince(start, world, requests, tool, args);
      }
    }
  }

  ghost function Results(start: Store, world: World, requests: seq<Request>, tool: string, args: Args): seq<Value> {
    Successes(start, Played(world, requests), tool, args)
  }

  lemma TrueByFirst(start: Store, world: World, requests: seq<Request>, tool: string, args: Args)
    requires Cacheable(tool) && ForgetsKnownTools(requests)
    ensures AnsweredTruly(start, world, requests, tool, args) <==>
              var results := Results(start, world, requests, tool, args);
              results == [] || world(Version(requests), tool, args) == Returned(results[0])
  {
    PlayedNames(world, requests);
    CachedEqualsUncached(start, Played(world, requests), tool, args, world(Version(requests), tool, args));
  }

  lemma {:induction false} PlayedNames(world: World, requests: seq<Request>)
    requires ForgetsKnownTools(requests)
    ensures NamesKnownTools(Played(world, requests))
  {
    if requests != [] {
      var init := requests[..|requests| - 1];
      assert forall i :: 0 <= i < |init| ==> init[i] == requests[i];
      PlayedNames(world, init);
    }
  }

  /** One more request, as the results see it. */
  lemma ResultsStep(start: Store, world: World, requests: seq<Request>, tool: string, args: Args)
    requires requests != []
    ensures var init, last := requests[..|requests| - 1], requests[|requests| - 1];
            var earlier, outcome := Results(start, world, init, tool, args), world(Version(init), tool, args);
            Results(start, world, requests, tool, args) ==
              if Drops(last, tool, args) then []
              else if last == Ask(tool, args) && outcome.Returned? && outcome.value != Null then earlier + [outcome.value]
              else earlier
  {
    var ops := Played(world, requests);
    assert ops[..|ops| - 1] == Played(world, requests[..|requests| - 1]);
  }

  /** How the last request bears on what is remembered and inherited. */
  lemma RemembersStep(start: Store, requests: seq<Request>, tool: string, args: Args)
    requires requests != [] && !Drops(requests[|requests| - 1], tool, args)
    ensures var init := requests[..|requests| - 1];
            && (forall i :: 0 <= i < |init| ==> (Remembers(requests, i, tool, args) <==> Remembers(init, i, tool, args)))
            && (Remembers(requests, |init|, tool, args) <==> requests[|init|] == Ask(tool, args))
            && (Inherited(start, requests, tool, args) <==> Inherited(start, init, tool, args))
  {
    var init := requests[..|requests| - 1];
    assert forall j :: 0 <= j < |init| ==> init[j] == requests[j];
    forall i | 0 <= i < |init| ensures Remembers(requests, i, tool, args) <==> Remembers(init, i, tool, args) {
      if Remembers(init, i, tool, args) {
        forall j | i < j < |requests| ensures !Drops(requests[j], tool, args) {
          if j < |init| { assert requests[j] == init[j]; }
        }
      }
    }
    if Inherited(start, init, tool, args) {
      forall j | 0 <= j < |requests| ensures !Drops(requests[j], tool, args) {
        if j < |init| { assert requests[j] == init[j]; }
      }
    }
  }

  lemma {:induction false} NothingRemembered(start: Store, world: World, requests: seq<Request>, tool: string, args: Args)
    requires !Inherited(start, requests, tool, args)
    requires forall i :: 0 <= i < |requests| ==> !Remembers(requests, i, tool, args)
    ensures Results(start, world, requests, tool, args) == []
  {
    if requests != [] {
      ResultsStep(start, world, requests, tool, args);
      if !Drops(requests[|requests| - 1], tool, args) {
        RemembersStep(start, requests, tool, args);
        NothingRemembered(start, world, requests[..|requests| - 1], tool, args);
      }
    }
  }

  lemma ChangedLater(start: Store, requests: seq<Request>, tool: string, args: Args)
    requires requests != [] && !Drops(requests[|requests| - 1], tool, args)
    ensures ChangedSince(requests[..|requests| - 1], tool, args) ==> ChangedSince(requests, tool, args)
  {
    var init := requests[..|requests| - 1];
    RemembersStep(start, requests, tool, args);
    if i, j :| 0 <= i < j < |init| && Remembers(init, i, tool, args) && init[j].Ask? && Mutates(init[j].tool) {
      assert requests[j] == init[j] && Remembers(requests, i, tool, args);
    }
  }

  lemma {:induction false} UnchangedSince(start: Store, world: World, requests: seq<Request>, tool: string, args: Args)
    requires Cacheable(tool) && !Inherited(start, requests, tool, args) && !ChangedSince(requests, tool, args)
    ensures forall v :: v in Results(start, world, requests, tool, args) ==> world(Version(requests), tool, args) == Returned(v)
  {
    if requests != [] && !Drops(requests[|requests| - 1], tool, args) {
      var init, last := requests[..|requests| - 1], requests[|requests| - 1];
      ResultsStep(start, world, requests, tool, args);
      RemembersStep(start, requests, tool, args);
      if last.Ask? && Mutates(last.tool) {
        assert requests[|init|] == last;
        NothingRemembered(start, world, requests, tool, args);
      } else {
        ChangedLater(start, requests, tool, args);
        UnchangedSince(start, world, init, tool, args);
      }
    } else if requests != [] {
      ResultsStep(start, world, requests, tool, args);
    }
  }

  /** The world in which a call answers differently from version `n` on. */
  function OldAndNew(n: nat): World {
    (version: nat, tool: string, args: Args) => Returned(if version < n then Object("old") else Object("new"))
  }

  lemma {:induction false} VersionGrows(requests: seq<Request>, i: nat)
    requires i <= |requests|
    ensures Version(requests[..i]) <= Version(requests)
  {
    if i == |requests| {
      assert requests[..i] == requests;
    } else {
      assert requests[..|requests| - 1][..i] == requests[..i];
      VersionGrows(requests[..|requests| - 1], i);
    }
  }

  lemma {:induction false} OldIsFirst(start: Store, n: nat, requests: seq<Request>, i: nat, tool: string, args: Args)
    requires !Inherited(start, requests, tool, args)
    requires Remembers(requests, i, tool, args) && Version(requests[..i]) < n
    ensures var results := Results(start, OldAndNew(n), requests, tool, args);
            results != [] && results[0] == Object("old")
  {
    var init, last := requests[..|requests| - 1], requests[|requests| - 1];
    assert !Drops(last, tool, args);
    ResultsStep(start, OldAndNew(n), requests, tool, args);
    RemembersStep(start, requests, tool, args);
    assert requests[..|init|] == init;
    if i < |init| {
      assert init[..i] == requests[..i];
      OldIsFirst(start, n, init, i, tool, args);
    } else if k: nat :| Remembers(init, k, tool, args) {
      VersionGrows(init, k);
      OldIsFirst(start, n, init, k, tool, args);
    } else {
      NothingRemembered(start, OldAndNew(n), init, tool, args);
    }
  }

  lemma VersionAt(requests: seq<Request>, j: nat)
    requires j < |requests| && requests[j].Ask? && Mutates(requests[j].tool)
    ensures Version(requests[..j + 1]) == Version(requests[..j]) + 1
  {
    assert requests[..j + 1][..j] == requests[..j];
  }

  lemma VersionRises(requests: seq<Request>, i: nat, j: nat)
    requires i < j < |requests| && requests[j].Ask? && Mutates(requests[j].tool)
    ensures Version(requests[..i]) < Version(requests)
  {
    assert requests[..j][..i] == requests[..i];
    VersionGrows(requests[..j], i);
    VersionAt(requests, j);
    VersionGrows(requests, j + 1);
  }

  lemma ChangedIsStale(start: Store, requests: seq<Request>, tool: string, args: Args)
    requires Cacheable(tool) && ForgetsKnownTools(requests)
    requires !Inherited(start, requests, tool, args) && ChangedSince(requests, tool, args)
    ensures !AnsweredTruly(start, OldAndNew(Version(requests)), requests, tool, args)
  {
    var n := Version(requests);
    var i, j :| 0 <= i < j < |requests| && Remembers(requests, i, tool, args) &&
                requests[j].Ask? && Mutates(requests[j].tool);
    VersionRises(requests, i, j);
    OldIsFirst(start, n, requests, i, tool, args);
    TrueByFirst(start, OldAndNew(n), requests, tool, args);
  }

  /** The world in which every tool returns `None`. */
  function NoneWorld(): World {
    (version: nat, tool: string, args: Args) => Returned(Null)
  }

  lemma InheritedIsStale(start: Store, requests: seq<Request>, tool: string, args: Args)
    requires Cacheable(tool) && ForgetsKnownTools(requests) && Inherited(start, requests, tool, args)
    ensures !AnsweredTruly(start, NoneWorld(), requests, tool, args)
  {
    InheritedIsFirst(start, requests, tool, args);
    TrueByFirst(start, NoneWorld(), requests, tool, args);
  }

  lemma {:induction false} InheritedIsFirst(start: Store, requests: seq<Request>, tool: string, args: Args)
    requires Inherited(start, requests, tool, args)
    ensures Results(start, NoneWorld(), requests, tool, args) == [Lookup(start, tool, args)]
  {
    if requests != [] {
      assert !Drops(requests[|requests| - 1], tool, args);
      ResultsStep(start, NoneWorld(), requests, tool, args);
      RemembersStep(start, requests, tool, args);
      InheritedIsFirst(start, requests[..|requests| - 1], tool, args);
    }
  }
}
