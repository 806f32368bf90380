/** Tool dispatch with the in-memory cache of tool results. */
module ToolCalls {
  import opened Wrappers

  /** Arguments as canonical JSON text (sorted keys); always the text of an object. */
  type Args = s: string | 2 <= |s| && s[0] == '{' witness "{}"

  /** What a tool returns; `Null` is Python's `None`. */
  datatype Value = Null | Object(repr: string)

  datatype Outcome = Returned(value: Value) | Raised(message: string)

  datatype ToolResult = ToolResult(result: Value, error: Option<string>, cacheHit: bool)

  predicate Registered(tool: string) {
    tool in { "read_file", "write_file", "list_directory", "search_codebase", "run_tests",
              "run_linter", "create_branch", "commit_and_push", "create_pr", "poll_pr_status" }
  }

  /** The tools that change something, whose results are never cached. */
  predicate Mutates(tool: string) {
    tool in { "write_file", "create_branch", "commit_and_push", "create_pr" }
  }

  predicate Cacheable(tool: string) { Registered(tool) && !Mutates(tool) }

  // ---- keys --------------------------------------------------------------------

  /** The text that is hashed; the hash is taken to be injective. */
  function Key(tool: string, args: Args): string { tool + args }

  /** The opening brace of the arguments is the first one in the key. */
  lemma FirstBrace(tool: string, args: Args)
    requires Registered(tool)
    ensures Key(tool, args)[|tool|] == '{' && forall i :: 0 <= i < |tool| ==> Key(tool, args)[i] != '{'
  {
    assert '{' !in tool;
    assert forall i :: 0 <= i < |tool| ==> Key(tool, args)[i] == tool[i];
  }

  /** Name and arguments are simply concatenated, yet no two calls share a key. */
  lemma KeyInjective(t: string, a: Args, u: string, b: Args)
    requires Registered(t) && Registered(u) && Key(t, a) == Key(u, b)
    ensures t == u && a == b
  {
    FirstBrace(t, a);
    FirstBrace(u, b);
    assert t == Key(t, a)[..|t|] && u == Key(u, b)[..|u|];
    assert a == Key(t, a)[|t|..] && b == Key(u, b)[|u|..];
  }

  // ---- what the store does ---------------------------------------------------------

  type Store = map<string, Value>

  function Lookup(store: Store, tool: string, args: Args): Value {
    if Key(tool, args) in store then store[Key(tool, args)] else Null
  }

  /** One operation on the cache.  A call comes with the outcome the tool has if it
      is really executed at that moment: the world may change between calls. */
  datatype Op = Call(tool: string, args: Args, outcome: Outcome) | Invalidate(tool: string, args: Args) | Clear

  /** Executing the tool, with no cache around. */
  function Uncached(outcome: Outcome): ToolResult {
    match outcome
    case Returned(v) => ToolResult(v, None, false)
    case Raised(message) => ToolResult(Null, Some(message), false)
  }

  /** What `execute` returns; `None` stands for the `KeyError` of an unknown tool. */
  function Answer(store: Store, tool: string, args: Args, outcome: Outcome): Option<ToolResult> {
    if !Registered(tool) then None
    else if Cacheable(tool) && Lookup(store, tool, args) != Null
    then Some(ToolResult(Lookup(store, tool, args), None, true))
    else Some(Uncached(outcome))
  }

  function Next(store: Store, op: Op): Store {
    match op
    case Clear => map[]
    case Invalidate(tool, args) => store - {Key(tool, args)}
    case Call(tool, args, outcome) =>
      if Cacheable(tool) && Lookup(store, tool, args) == Null && outcome.Returned?
      then store[Key(tool, args) := outcome.value] else store
  }

  ghost function After(initial: Store, ops: seq<Op>): Store {
    if ops == [] then initial else Next(After(initial, ops[..|ops| - 1]), ops[|ops| - 1])
  }

  // ---- the reference: results by call, in order ---------------------------------------

  ghost predicate Forgets(op: Op, tool: string, args: Args) {
    op.Clear? || op == Invalidate(tool, args)
  }

  ghost predicate Succeeds(op: Op, tool: string, args: Args) {
    op.Call? && op.tool == tool && op.args == args && op.outcome.Returned? && op.outcome.value != Null
  }

  /** The successful results other than `None` that this very call would have had
      since it was last forgotten, oldest first. */
  ghost function Successes(initial: Store, ops: seq<Op>, tool: string, args: Args): seq<Value> {
    if ops == [] then if Lookup(initial, tool, args) == Null then [] else [Lookup(initial, tool, args)]
    else
      var earlier, op := Successes(initial, ops[..|ops| - 1], tool, args), ops[|ops| - 1];
      if Forgets(op, tool, args) then []
      else if Succeeds(op, tool, args) then earlier + [op.outcome.value]
      else earlier
  }

  ghost predicate NamesKnownTools(ops: seq<Op>) {
    forall i :: 0 <= i < |ops| && ops[i].Invalidate? ==> Registered(ops[i].tool)
  }

  /** The cache holds the first success of every call, and nothing else: errors,
      `None` and the tools that change something leave no trace. */
  lemma {:induction false} CacheKeepsTheFirst(initial: Store, ops: seq<Op>, tool: string, args: Args)
    requires Cacheable(tool) && NamesKnownTools(ops)
    ensures var successes := Successes(initial, ops, tool, args);
            Lookup(After(initial, ops), tool, args) == if successes == [] then Null else successes[0]
  {
    if ops != [] {
      var init, op := ops[..|ops| - 1], ops[|ops| - 1];
      assert NamesKnownTools(init) by { assert forall i :: 0 <= i < |init| ==> init[i] == ops[i]; }
      CacheKeepsTheFirst(initial, init, tool, args);
      SuccessesAreValues(initial, init, tool, args);
      assert op.Invalidate? ==> Registered(op.tool);
      if !op.Clear? && Registered(op.tool) && Key(op.tool, op.args) == Key(tool, args) {
        KeyInjective(op.tool, op.args, tool, args);
      }
    }
  }

  /** A tool that changes something is executed every time, and is never stored. */
  lemma {:induction false} MutatingToolsAlwaysRun(initial: Store, ops: seq<Op>, tool: string, args: Args, outcome: Outcome)
    requires Mutates(tool) && Key(tool, args) !in initial
    ensures Answer(After(initial, ops), tool, args, outcome) == Some(Uncached(outcome))
    ensures Key(tool, args) !in After(initial, ops)
  {
    if ops != [] {
      var op := ops[|ops| - 1];
      MutatingToolsAlwaysRun(initial, ops[..|ops| - 1], tool, args, outcome);
      if op.Call? && Registered(op.tool) && Key(op.tool, op.args) == Key(tool, args) {
        KeyInjective(op.tool, op.args, tool, args);
      }
    }
  }

  /** When the cache tells the truth: a call is answered as without a cache unless
      an earlier success of it differs from what it would return now. */
  lemma CachedEqualsUncached(initial: Store, ops: seq<Op>, tool: string, args: Args, outcome: Outcome)
    requires Registered(tool) && NamesKnownTools(ops)
    ensures var answer := Answer(After(initial, ops), tool, args, outcome);
            var successes := Successes(initial, ops, tool, args);
            answer.Some? &&
            (answer.value.(cacheHit := false) == Uncached(outcome) <==>
               Mutates(tool) || successes == [] || outcome == Returned(successes[0]))
  {
    if Cacheable(tool) {
      CacheKeepsTheFirst(initial, ops, tool, args);
      SuccessesAreValues(initial, ops, tool, args);
    }
  }

  lemma {:induction false} SuccessesAreValues(initial: Store, ops: seq<Op>, tool: string, args: Args)
    ensures Null !in Successes(initial, ops, tool, args)
  {
    if ops != [] { SuccessesAreValues(initial, ops[..|ops| - 1], tool, args); }
  }

  /** What a call is answered after any operations, by its own successes so far: an
      unknown tool with nothing, a remembered success with the first one, and anything
      else with what the tool does now, an exception with its own message. */
  lemma AnswerIs(initial: Store, ops: seq<Op>, tool: string, args: Args, outcome: Outcome)
    requires NamesKnownTools(ops)
    ensures var answer := Answer(After(initial, ops), tool, args, outcome);
            var successes := Successes(initial, ops, tool, args);
            var read := tool in {"read_file", "list_directory", "search_codebase", "run_tests", "run_linter", "poll_pr_status"};
            var write := tool in {"write_file", "create_branch", "commit_and_push", "create_pr"};
            if read && successes != [] then answer == Some(ToolResult(successes[0], None, true))
            else if read || write then
              answer == Some(if outcome.Raised? then ToolResult(Null, Some(outcome.message), false)
                             else ToolResult(outcome.value, None, false))
            else answer == None
  {
    if Cacheable(tool) {
      CacheKeepsTheFirst(initial, ops, tool, args);
      SuccessesAreValues(initial, ops, tool, args);
    }
  }

  /** In an unchanged environment the same call always has the same outcome. */
  ghost predicate Unchanged(ops: seq<Op>, tool: string, args: Args, outcome: Outcome) {
    forall i :: 0 <= i < |ops| && ops[i].Call? && ops[i].tool == tool && ops[i].args == args ==> ops[i].outcome == outcome
  }

  lemma {:induction false} UnchangedSuccesses(ops: seq<Op>, tool: string, args: Args, outcome: Outcome)
    requires Unchanged(ops, tool, args, outcome)
    ensures forall v :: v in Successes(map[], ops, tool, args) ==> outcome == Returned(v)
  {
    if ops != [] {
      var init := ops[..|ops| - 1];
      assert Unchanged(init, tool, args, outcome) by { assert forall i :: 0 <= i < |init| ==> init[i] == ops[i]; }
      UnchangedSuccesses(init, tool, args, outcome);
    }
  }

  /** While the environment does not change, the cache cannot be noticed. */
  lemma CacheIsTransparent(ops: seq<Op>, tool: string, args: Args, outcome: Outcome)
    requires Registered(tool) && NamesKnownTools(ops) && Unchanged(ops, tool, args, outcome)
    ensures var answer := Answer(After(map[], ops), tool, args, outcome);
            answer.Some? && answer.value.(cacheHit := false) == Uncached(outcome)
  {
    CachedEqualsUncached(map[], ops, tool, args, outcome);
    UnchangedSuccesses(ops, tool, args, outcome);
  }

  /** Calls alone never forget: once a result is cached, no later call of any tool,
      a write included, changes the answer. */
  lemma {:induction false} CallsNeverForget(store: Store, ops: seq<Op>, tool: string, args: Args)
    requires Cacheable(tool) && Lookup(store, tool, args) != Null
    requires forall i :: 0 <= i < |ops| ==> ops[i].Call?
    ensures Lookup(After(store, ops), tool, args) == Lookup(store, tool, args)
  {
    if ops != [] {
      var init, op := ops[..|ops| - 1], ops[|ops| - 1];
      assert forall i :: 0 <= i < |init| ==> init[i] == ops[i];
      CallsNeverForget(store, init, tool, args);
      if Registered(op.tool) && Key(op.tool, op.args) == Key(tool, args) {
        KeyInjective(op.tool, op.args, tool, args);
      }
    }
  }

  /** So a file read, overwritten and read again still has its old content. */
  lemma StaleRead(path: Args, write: Args, before: Value, now: Value)
    requires before != Null && before != now
    ensures var ops := [Call("read_file", path, Returned(before)), Call("write_file", write, Returned(Object("True")))];
            Answer(After(map[], ops), "read_file", path, Returned(now)) == Some(ToolResult(before, None, true))
  {
    var read, wrote := Call("read_file", path, Returned(before)), Call("write_file", write, Returned(Object("True")));
    assert [read, wrote][..1] == [read] && [read][..0] == [];
    assert After(map[], [read]) == Next(map[], read);
    CallsNeverForget(After(map[], [read]), [wrote], "read_file", path);
    assert [wrote][..0] == [];
  }

  // ---- the cache object and the registry -----------------------------------------------

  class ToolCache {
    var store: Store
    ghost var initial: Store
    ghost var ops: seq<Op>  // what happened to this cache

    ghost predicate Valid()
      reads this
    {
      store == After(initial, ops)
    }

    constructor (saved: Store)
      ensures Valid() && store == initial == saved && ops == []
    {
      store, initial, ops := saved, saved, [];
    }

    function Get(tool: string, args: Args): Value
      reads this
    {
      Lookup(store, tool, args)
    }

    method Set(tool: string, args: Args, result: Value)
      modifies this`store
      ensures store == old(store)[Key(tool, args) := result]
    {
      store := store[Key(tool, args) := result];
    }

    method Invalidate(tool: string, args: Args)
      requires Valid()
      modifies this
      ensures Valid() && initial == old(initial) && ops == old(ops) + [Op.Invalidate(tool, args)]
      ensures Get(tool, args) == Null && forall key :: key != Key(tool, args) ==>
                (key in store <==> key in old(store)) && (key in store ==> store[key] == old(store)[key])
    {
      store := store - {Key(tool, args)};
      ops := ops + [Op.Invalidate(tool, args)];
      assert ops[..|ops| - 1] == old(ops);
    }

    method Clear()
      requires Valid()
      modifies this
      ensures Valid() && initial == old(initial) && ops == old(ops) + [Op.Clear] && store == map[]
    {
      store := map[];
      ops := ops + [Op.Clear];
      assert ops[..|ops| - 1] == old(ops);
    }
  }

  /** `execute`: a cached result other than `None` is returned at once; otherwise the
      tool runs, its exception becomes an error, and a success is stored. */
  method Execute(tool: string, args: Args, run: (string, Args) -> Outcome, cache: ToolCache)
    returns (answer: Option<ToolResult>)
    requires cache.Valid()
    modifies cache
    ensures cache.Valid() && cache.initial == old(cache.initial)
    ensures cache.ops == old(cache.ops) + [Call(tool, args, run(tool, args))]
    ensures answer == Answer(old(cache.store), tool, args, run(tool, args))
    ensures cache.store ==
              if tool in {"read_file", "list_directory", "search_codebase", "run_tests", "run_linter", "poll_pr_status"}
                 && Lookup(old(cache.store), tool, args) == Null && run(tool, args).Returned?
              then old(cache.store)[tool + args := run(tool, args).value] else old(cache.store)
  {
    ghost var op := Call(tool, args, run(tool, args));
    assert (cache.ops + [op])[..|cache.ops|] == cache.ops;
    if !Registered(tool) {
      cache.ops := cache.ops + [op];
      return None;
    }
    var cacheable := !Mutates(tool);
    if cacheable {
      var cached := cache.Get(tool, args);
      if cached != Null {
        cache.ops := cache.ops + [op];
        return Some(ToolResult(cached, None, true));
      }
    }
    var outcome := run(tool, args);
    var result, error := Null, None;
    match outcome {
      case Returned(v) => result := v;
      case Raised(message) => error := Some(message);
    }
    if cacheable && error.None? { cache.Set(tool, args, result); }
    cache.ops := cache.ops + [op];
    return Some(ToolResult(result, error, false));
  }
}
