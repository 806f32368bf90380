/** One stage: build the prompt, loop over model and tools, parse and cache the artifact. */
module StageAgent {
  import opened Wrappers
  import opened ArtifactCleaner
  import opened ToolCalls
  import Responses = ResponseCache

  datatype ToolCall = ToolCall(id: string, name: string, arguments: string)

  datatype Message =
    | System(content: string)
    | User(content: string)
    | Assistant(text: Option<string>, calls: seq<ToolCall>)
    | Tool(callId: string, content: string)

  /** The parts of the prompt that are read anew for every request. */
  datatype Layers = Layers(system: string, codebase: string, instruction: string)

  datatype Reply = Reply(content: Option<string>, calls: seq<ToolCall>) | GatewayRaised(message: string)

  /** `json.loads` on the arguments of a tool call. */
  datatype Loaded = Malformed | NotAnObject | Loaded(args: Args)

  datatype Error = GatewayError(message: string) | MalformedArtifact | ArgumentsNotAnObject | NotSerialisable | IterationLimit

  datatype Status = Completed | Failed

  datatype StageResult = StageResult(status: Status, artifact: Option<string>, error: Option<Error>, cacheHit: bool)

  /** Everything a stage meets while it runs, as arbitrary functions of the turn: the
      files and the memory behind the prompt, the model, the tools, JSON itself,
      and the wording of the message about an unknown tool. */
  datatype World = World(
    layers: nat -> Layers,
    reply: (nat, seq<Message>) -> Reply,
    outcome: (nat, nat, string, Args) -> Outcome,
    loads: string -> Loaded,
    dumps: Value -> Option<string>,
    notAvailable: string -> string,
    promptText: seq<Message> -> string,
    artifact: string -> Option<string>)

  // ---- requests --------------------------------------------------------------------

  /** System prompt, codebase context if there is any, the conversation, the instruction. */
  function Request(l: Layers, history: seq<Message>): seq<Message> {
    Preamble(l) + history + [User(l.instruction)]
  }

  function Preamble(l: Layers): seq<Message> {
    if l.codebase == "" then [System(l.system)] else [System(l.system), User(l.codebase)]
  }

  function CacheKey(w: World): string { w.promptText(Request(w.layers(0), [])) }

  // ---- the reference: the conversation turn by turn -----------------------------------

  /** What has been said, and what was asked of the tool cache. */
  datatype Talk = Talk(history: seq<Message>, ops: seq<Op>)

  /** What the tool registry answers, given all earlier operations on the tool cache. */
  type Registry = (seq<Op>, string, Args, Outcome) -> Option<ToolResult>

  /** The registry with a cache that started out as `start`. */
  ghost function CachedFrom(start: Store): Registry {
    (ops: seq<Op>, name: string, args: Args, outcome: Outcome) => Answer(After(start, ops), name, args, outcome)
  }

  const EMPTY_ARGS: Args := "{}"

  function Arguments(loaded: Loaded): Args
    requires !loaded.NotAnObject?
  {
    if loaded.Malformed? then EMPTY_ARGS else loaded.args
  }

  /** The text sent back to the model; an empty error message counts as no error. */
  function ResultText(w: World, name: string, answer: Option<ToolResult>): Option<string> {
    if answer.None? then Some(w.notAvailable(name))
    else if answer.value.error.Some? && answer.value.error.value != "" then answer.value.error
    else w.dumps(answer.value.result)
  }

  /** The `j`-th tool call of a turn. */
  ghost function OneCall(w: World, ask: Registry, turn: nat, j: nat, t: Talk, call: ToolCall): Result<Talk, Error> {
    var loaded := w.loads(call.arguments);
    if loaded.NotAnObject? then Failure(ArgumentsNotAnObject)
    else
      var args := Arguments(loaded);
      var outcome := w.outcome(turn, j, call.name, args);
      match ResultText(w, call.name, ask(t.ops, call.name, args, outcome))
      case None => Failure(NotSerialisable)
      case Some(text) => Success(Talk(t.history + [Tool(call.id, text)], t.ops + [Call(call.name, args, outcome)]))
  }

  /** The first `j` tool calls of a turn. */
  ghost function Calls(w: World, ask: Registry, turn: nat, t: Talk, calls: seq<ToolCall>, j: nat): Result<Talk, Error>
    requires j <= |calls|
  {
    if j == 0 then Success(t)
    else match Calls(w, ask, turn, t, calls, j - 1)
         case Failure(e) => Failure(e)
         case Success(u) => OneCall(w, ask, turn, j - 1, u, calls[j - 1])
  }

  datatype Turned = Continues(talk: Talk) | Answers(artifact: string) | Breaks(error: Error)

  /** One request and what follows from the reply. */
  ghost function Turn(w: World, ask: Registry, turn: nat, t: Talk): Turned {
    var reply := w.reply(turn, Request(w.layers(turn + 1), t.history));
    match reply
    case GatewayRaised(message) => Breaks(GatewayError(message))
    case Reply(content, calls) =>
      if calls == [] then
        match w.artifact(Clean(if content.Some? then content.value else ""))
        case None => Breaks(MalformedArtifact)
        case Some(a) => Answers(a)
      else
        match Calls(w, ask, turn, Talk(t.history + [Assistant(content, calls)], t.ops), calls, |calls|)
        case Failure(e) => Breaks(e)
        case Success(u) => Continues(u)
  }

  /** The conversation after `n` turns that all called tools. */
  ghost function Conversation(w: World, ask: Registry, n: nat): Option<Talk> {
    if n == 0 then Some(Talk([], []))
    else match Conversation(w, ask, n - 1)
         case None => None
         case Some(t) =>
           match Turn(w, ask, n - 1, t)
           case Continues(u) => Some(u)
           case _ => None
  }

  /** The requests of the first `n` turns. */
  ghost function Requests(w: World, ask: Registry, n: nat): seq<seq<Message>>
    requires n == 0 || Conversation(w, ask, n - 1).Some?
  {
    if n == 0 then []
    else
      assert n > 1 ==> Conversation(w, ask, n - 2).Some?;
      Requests(w, ask, n - 1) + [Request(w.layers(n), Conversation(w, ask, n - 1).value.history)]
  }

  /** A model may wrap its final answer in a fence: the stage ends as if it had not. */
  lemma FencedAnswerIsParsed(w: World, ask: Registry, turn: nat, t: Talk, before: string, language: string, open: string,
                             json: string, close: string, after: string)
    requires IsFence(before, language, open, close, after) && ObjectText(json)
    requires w.reply(turn, Request(w.layers(turn + 1), t.history)) ==
               Reply(Some(Fenced(before, language, open, json, close, after)), [])
    ensures Turn(w, ask, turn, t) ==
              if w.artifact(json).Some? then Answers(w.artifact(json).value) else Breaks(MalformedArtifact)
  {
    CleanUndoesFencing(before, language, open, json, close, after);
  }

  // ---- the message protocol --------------------------------------------------------------

  /** The tool messages that answer `calls`, one each and in order. */
  ghost predicate Answered(calls: seq<ToolCall>, messages: seq<Message>) {
    |messages| == |calls| && forall j :: 0 <= j < |calls| ==> messages[j].Tool? && messages[j].callId == calls[j].id
  }

  /** A history made of complete rounds: an assistant message with tool calls, and
      its tool messages. */
  ghost predicate Rounds(history: seq<Message>)
    decreases |history|
  {
    history == [] ||
    (history[0].Assistant? && 0 < |history[0].calls| < |history| &&
     var k := |history[0].calls| + 1;
     Answered(history[0].calls, history[1..k]) && Rounds(history[k..]))
  }

  lemma Prefixed(history: seq<Message>, more: seq<Message>, k: nat)
    requires 1 <= k <= |history|
    ensures (history + more)[k..] == history[k..] + more && (history + more)[1..k] == history[1..k]
    ensures (history + more)[0] == history[0]
  {
  }

  lemma {:induction false} RoundsAppend(history: seq<Message>, more: seq<Message>)
    requires Rounds(history) && Rounds(more)
    ensures Rounds(history + more)
    decreases |history|
  {
    if history == [] {
      assert history + more == more;
    } else {
      var k := |history[0].calls| + 1;
      RoundsAppend(history[k..], more);
      Prefixed(history, more, k);
    }
  }

  /** Each call that succeeds adds one tool message, with its own id. */
  lemma {:induction false} CallsAnswer(w: World, ask: Registry, turn: nat, t: Talk, calls: seq<ToolCall>, j: nat)
    returns (added: seq<Message>)
    requires j <= |calls| && Calls(w, ask, turn, t, calls, j).Success?
    ensures Calls(w, ask, turn, t, calls, j).value.history == t.history + added
    ensures Answered(calls[..j], added)
  {
    added := [];
    if j > 0 {
      added := CallsAnswer(w, ask, turn, t, calls, j - 1);
      var last := Calls(w, ask, turn, t, calls, j).value.history;
      added := added + [last[|last| - 1]];
    } else {
      assert t.history == t.history + [];
    }
  }

  /** A turn adds one complete round. */
  lemma TurnAddsRound(w: World, ask: Registry, turn: nat, t: Talk) returns (round: seq<Message>)
    requires Turn(w, ask, turn, t).Continues?
    ensures Turn(w, ask, turn, t).talk.history == t.history + round
    ensures Rounds(round) && round != []
  {
    var reply := w.reply(turn, Request(w.layers(turn + 1), t.history));
    var question := Assistant(reply.content, reply.calls);
    var added := CallsAnswer(w, ask, turn, Talk(t.history + [question], t.ops), reply.calls, |reply.calls|);
    assert reply.calls[..|reply.calls|] == reply.calls;
    round := OneRound(t.history, question, added);
  }

  lemma OneRound(history: seq<Message>, question: Message, added: seq<Message>) returns (round: seq<Message>)
    requires question.Assistant? && question.calls != [] && Answered(question.calls, added)
    ensures history + [question] + added == history + round
    ensures Rounds(round) && round != []
  {
    round := [question] + added;
    assert round[1..|question.calls| + 1] == added && round[|question.calls| + 1..] == [];
  }

  lemma ConversationStep(w: World, ask: Registry, n: nat)
    requires n > 0 && Conversation(w, ask, n).Some?
    ensures Conversation(w, ask, n - 1).Some?
    ensures Turn(w, ask, n - 1, Conversation(w, ask, n - 1).value) == Continues(Conversation(w, ask, n).value)
  {
  }

  /** Every history is made of complete rounds. */
  lemma {:induction false} HistoryIsRounds(w: World, ask: Registry, n: nat)
    requires Conversation(w, ask, n).Some?
    ensures Rounds(Conversation(w, ask, n).value.history)
  {
    if n > 0 {
      ConversationStep(w, ask, n);
      var t := Conversation(w, ask, n - 1).value;
      HistoryIsRounds(w, ask, n - 1);
      var round := TurnAddsRound(w, ask, n - 1, t);
      RoundsAppend(t.history, round);
    }
  }

  /** Every history properly extends every earlier one. */
  lemma {:induction false} HistoryExtends(w: World, ask: Registry, m: nat, n: nat)
    requires m < n && Conversation(w, ask, n).Some?
    ensures Conversation(w, ask, m).Some?
    ensures Conversation(w, ask, m).value.history < Conversation(w, ask, n).value.history
  {
    ConversationStep(w, ask, n);
    var t := Conversation(w, ask, n - 1).value;
    var round := TurnAddsRound(w, ask, n - 1, t);
    if m < n - 1 { HistoryExtends(w, ask, m, n - 1); }
  }

  /** In a history of rounds, the answers follow their question at once. */
  lemma {:induction false} RoundsAnswer(history: seq<Message>, p: nat)
    requires Rounds(history) && p < |history| && !history[p].Tool?
    ensures history[p].Assistant? && p + 1 + |history[p].calls| <= |history|
    ensures Answered(history[p].calls, history[p + 1..p + 1 + |history[p].calls|])
    ensures p + 1 + |history[p].calls| < |history| ==> !history[p + 1 + |history[p].calls|].Tool?
    decreases |history|
  {
    var k := |history[0].calls| + 1;
    if p == 0 {
      if k < |history| { assert history[k..][0] == history[k]; }
    } else {
      NotInFirstRound(history, p);
      RoundsAnswer(history[k..], p - k);
      Shifted(history, k, p, |history[p].calls|);
    }
  }

  lemma NotInFirstRound(history: seq<Message>, p: nat)
    requires Rounds(history) && 0 < p < |history| && !history[p].Tool?
    ensures p > |history[0].calls| && history[|history[0].calls| + 1..][p - |history[0].calls| - 1] == history[p]
  {
    var k := |history[0].calls| + 1;
    assert forall i :: 1 <= i < k ==> history[i] == history[1..k][i - 1];
  }

  lemma Shifted(history: seq<Message>, k: nat, p: nat, n: nat)
    requires k <= p < |history|
    ensures p + 1 + n <= |history| ==> history[k..][p - k + 1..p - k + 1 + n] == history[p + 1..p + 1 + n]
    ensures p + 1 + n < |history| ==> history[k..][p - k + 1 + n] == history[p + 1 + n]
  {
  }

  /** The message at `p` asks for tools, and its answers come next, one per call. */
  ghost predicate AnsweredAt(request: seq<Message>, p: nat)
    requires p < |request| && request[p].Assistant?
  {
    var end := p + 1 + |request[p].calls|;
    p + 1 < end < |request| && Answered(request[p].calls, request[p + 1..end]) && !request[end].Tool?
  }

  lemma AnsweredInRequest(before: seq<Message>, history: seq<Message>, last: Message, p: nat)
    requires Rounds(history) && !last.Assistant? && !last.Tool?
    requires forall i :: 0 <= i < |before| ==> !before[i].Assistant?
    requires p < |before + history + [last]| && (before + history + [last])[p].Assistant?
    ensures AnsweredAt(before + history + [last], p)
  {
    var request, q := before + history + [last], p - |before|;
    assert forall i :: 0 <= i < |before| ==> request[i] == before[i];
    assert 0 <= q < |history| && request[p] == history[q];
    RoundsAnswer(history, q);
    AssistantsCall(history, q);
    MiddlePart(before, history, [last], q + 1, q + 1 + |history[q].calls|);
  }

  lemma MiddlePart(before: seq<Message>, middle: seq<Message>, after: seq<Message>, i: nat, j: nat)
    requires i <= j <= |middle| && |after| == 1
    ensures (before + middle + after)[|before| + i..|before| + j] == middle[i..j]
    ensures (before + middle + after)[|before| + j] == if j < |middle| then middle[j] else after[0]
  {
  }

  lemma {:induction false} AssistantsCall(history: seq<Message>, p: nat)
    requires Rounds(history) && p < |history| && history[p].Assistant?
    ensures history[p].calls != []
    decreases |history|
  {
    var k := |history[0].calls| + 1;
    if p > 0 {
      NotInFirstRound(history, p);
      AssistantsCall(history[k..], p - k);
    }
  }

  /** In every request, each assistant message with tool calls is followed by exactly
      one tool message per call, in order, before anything else. */
  lemma EveryCallIsAnswered(w: World, ask: Registry, n: nat, i: nat, p: nat)
    requires i < n && Conversation(w, ask, n - 1).Some?
    requires i < |Requests(w, ask, n)| && p < |Requests(w, ask, n)[i]| && Requests(w, ask, n)[i][p].Assistant?
    ensures AnsweredAt(Requests(w, ask, n)[i], p)
  {
    RequestAt(w, ask, n, i);
    HistoryIsRounds(w, ask, i);
    var l := w.layers(i + 1);
    AnsweredInRequest(Preamble(l), Conversation(w, ask, i).value.history, User(l.instruction), p);
  }

  lemma {:induction false} RequestAt(w: World, ask: Registry, n: nat, i: nat)
    requires i < n && Conversation(w, ask, n - 1).Some?
    ensures |Requests(w, ask, n)| == n && Conversation(w, ask, i).Some?
    ensures Requests(w, ask, n)[i] == Request(w.layers(i + 1), Conversation(w, ask, i).value.history)
  {
    if i < n - 1 {
      RequestAt(w, ask, n - 1, i);
    } else if i > 0 {
      RequestAt(w, ask, n - 1, i - 1);
    }
  }

  // ---- the agent ------------------------------------------------------------------------------

  /** The part of the run state the agent writes. */
  class StageState {
    var toolCache: Store

    constructor (saved: Store)
      ensures toolCache == saved
    {
      toolCache := saved;
    }
  }

  /** How a stage that asked the model `turns` times may end: with the answer of the
      last turn, with what broke the last turn, or with the loop used up. */
  ghost predicate Ended(w: World, ask: Registry, maxIterations: nat, turns: nat, end: Result<string, Error>)
    requires turns == 0 || Conversation(w, ask, turns - 1).Some?
  {
    match end
    case Success(artifact) =>
      turns > 0 && Turn(w, ask, turns - 1, Conversation(w, ask, turns - 1).value) == Answers(artifact)
    case Failure(error) =>
      || (error == IterationLimit && turns == maxIterations && Conversation(w, ask, turns).Some?)
      || (turns > 0 && Turn(w, ask, turns - 1, Conversation(w, ask, turns - 1).value) == Breaks(error))
  }

  /** A whole run of the loop: what was sent, how it ended, what the tool cache was asked. */
  ghost predicate Conversed(w: World, ask: Registry, maxIterations: nat, turns: nat, sent: seq<seq<Message>>,
                            end: Result<string, Error>, ops: seq<Op>) {
    && turns <= maxIterations && (turns == 0 || Conversation(w, ask, turns - 1).Some?)
    && sent == Requests(w, ask, turns)
    && Ended(w, ask, maxIterations, turns, end)
    && (end.Success? ==> ops == Conversation(w, ask, turns - 1).value.ops)
  }

  /** What one turn leads to: its end, or a longer history and more cache operations. */
  ghost predicate Took(w: World, ask: Registry, turn: nat, t: Talk, end: Option<Result<string, Error>>, u: Talk) {
    match Turn(w, ask, turn, t)
    case Answers(a) => end == Some(Success(a)) && u.ops == t.ops
    case Breaks(e) => end == Some(Failure(e))
    case Continues(v) => end.None? && u == v
  }

  /** `n` turns lie behind: what was said, and what was sent. */
  ghost predicate Underway(w: World, ask: Registry, n: nat, t: Talk, sent: seq<seq<Message>>) {
    && Conversation(w, ask, n) == Some(t)
    && (n == 0 || Conversation(w, ask, n - 1).Some?)
    && sent == Requests(w, ask, n)
  }

  /** After any number of turns the loop is under way or has ended. */
  ghost predicate Looping(w: World, ask: Registry, maxIterations: nat, n: nat, sent: seq<seq<Message>>,
                          end: Option<Result<string, Error>>, t: Talk) {
    if end.None? then Underway(w, ask, n, t, sent)
    else Conversed(w, ask, maxIterations, n, sent, end.value, t.ops)
  }

  lemma NextTurn(w: World, ask: Registry, maxIterations: nat, n: nat, t: Talk, sent: seq<seq<Message>>,
                 end: Option<Result<string, Error>>, u: Talk)
    requires n < maxIterations && Looping(w, ask, maxIterations, n, sent, None, t) && Took(w, ask, n, t, end, u)
    ensures Looping(w, ask, maxIterations, n + 1, sent + [Request(w.layers(n + 1), t.history)], end, u)
  {
  }

  lemma LoopIsOver(w: World, ask: Registry, maxIterations: nat, t: Talk, sent: seq<seq<Message>>)
    requires Looping(w, ask, maxIterations, maxIterations, sent, None, t)
    ensures Conversed(w, ask, maxIterations, maxIterations, sent, Failure(IterationLimit), t.ops)
  {
  }

  /** Whatever the model and the tools do, a stage sends at most `maxIterations`
      requests, and every one of them keeps to the message protocol. */
  lemma ProtocolHolds(w: World, ask: Registry, maxIterations: nat, turns: nat, sent: seq<seq<Message>>,
                      end: Result<string, Error>, ops: seq<Op>)
    requires Conversed(w, ask, maxIterations, turns, sent, end, ops)
    ensures |sent| == turns <= maxIterations
    ensures forall i, p :: 0 <= i < |sent| && 0 <= p < |sent[i]| && sent[i][p].Assistant? ==> AnsweredAt(sent[i], p)
  {
    if turns > 0 { RequestAt(w, ask, turns, 0); }
    forall i, p | 0 <= i < |sent| && 0 <= p < |sent[i]| && sent[i][p].Assistant? ensures AnsweredAt(sent[i], p) {
      EveryCallIsAnswered(w, ask, turns, i, p);
    }
  }

  // ---- what the model is shown ----------------------------------------------------------------

  /** The messages that are part of the conversation, or those that are not. */
  ghost function Part(messages: seq<Message>, spoken: bool): seq<Message> {
    if messages == [] then []
    else if (messages[0].Assistant? || messages[0].Tool?) == spoken then [messages[0]] + Part(messages[1..], spoken)
    else Part(messages[1..], spoken)
  }

  /** What was said in the conversation. */
  ghost function Spoken(messages: seq<Message>): seq<Message> { Part(messages, true) }

  /** The messages around it. */
  ghost function Framing(messages: seq<Message>): seq<Message> { Part(messages, false) }

  lemma {:induction false} PartAppend(a: seq<Message>, b: seq<Message>, spoken: bool)
    ensures Part(a + b, spoken) == Part(a, spoken) + Part(b, spoken)
  {
    if a == [] {
      assert a + b == b;
    } else {
      assert (a + b)[0] == a[0] && (a + b)[1..] == a[1..] + b;
      PartAppend(a[1..], b, spoken);
      Prepended(a[0], Part(a[1..], spoken), Part(b, spoken));
    }
  }

  lemma Prepended(m: Message, a: seq<Message>, b: seq<Message>)
    ensures [m] + (a + b) == ([m] + a) + b
  {
  }

  lemma {:induction false} AllOneKind(messages: seq<Message>, spoken: bool)
    requires forall i :: 0 <= i < |messages| ==> (messages[i].Assistant? || messages[i].Tool?) == spoken
    ensures Part(messages, spoken) == messages && Part(messages, !spoken) == []
  {
    if messages != [] { AllOneKind(messages[1..], spoken); }
  }

  lemma {:induction false} RoundsAreSpoken(history: seq<Message>, i: nat)
    requires Rounds(history) && i < |history|
    ensures history[i].Assistant? || history[i].Tool?
    decreases |history|
  {
    var k := |history[0].calls| + 1;
    if i >= k {
      RoundsAreSpoken(history[k..], i - k);
    } else if i > 0 {
      assert history[i] == history[1..k][i - 1];
    }
  }

  lemma PartOfRequest(l: Layers, history: seq<Message>, spoken: bool)
    ensures Part(Request(l, history), spoken) ==
              Part(Preamble(l), spoken) + Part(history, spoken) + Part([User(l.instruction)], spoken)
  {
    PartAppend(Preamble(l) + history, [User(l.instruction)], spoken);
    PartAppend(Preamble(l), history, spoken);
  }

  lemma PartsOfRequest(l: Layers, history: seq<Message>)
    requires Rounds(history)
    ensures Spoken(Request(l, history)) == history
    ensures Framing(Request(l, history)) ==
              if l.codebase == "" then [System(l.system), User(l.instruction)]
              else [System(l.system), User(l.codebase), User(l.instruction)]
  {
    forall i | 0 <= i < |history| ensures history[i].Assistant? || history[i].Tool? { RoundsAreSpoken(history, i); }
    AllOneKind(history, true);
    AllOneKind(Preamble(l), false);
    AllOneKind([User(l.instruction)], false);
    PartOfRequest(l, history, true);
    PartOfRequest(l, history, false);
  }

  /** The response cache is asked for the prompt of a stage before anything was said. */
  lemma KeyIsThePrompt(w: World)
    ensures var l := w.layers(0);
            CacheKey(w) == w.promptText(if l.codebase == "" then [System(l.system), User(l.instruction)]
                                        else [System(l.system), User(l.codebase), User(l.instruction)])
  {
    PartsOfRequest(w.layers(0), []);
    AllOneKind(Request(w.layers(0), []), false);
  }

  /** Every request shows the model the whole conversation so far, in order, between the
      system prompt, with the codebase after it if there is any, and the instruction. */
  lemma RequestsCarryTheTalk(w: World, ask: Registry, maxIterations: nat, turns: nat, sent: seq<seq<Message>>,
                             end: Result<string, Error>, ops: seq<Op>, i: nat)
    requires Conversed(w, ask, maxIterations, turns, sent, end, ops) && i < |sent|
    ensures |sent| == turns && Conversation(w, ask, i).Some?
    ensures Spoken(sent[i]) == Conversation(w, ask, i).value.history
    ensures var l := w.layers(i + 1);
            && Framing(sent[i]) == (if l.codebase == "" then [System(l.system), User(l.instruction)]
                                    else [System(l.system), User(l.codebase), User(l.instruction)])
            && 0 < |sent[i]| && sent[i][0] == System(l.system) && sent[i][|sent[i]| - 1] == User(l.instruction)
  {
    SentAt(w, ask, maxIterations, turns, sent, end, ops, i);
    HistoryIsRounds(w, ask, i);
    PartsOfRequest(w.layers(i + 1), Conversation(w, ask, i).value.history);
  }

  lemma SentAt(w: World, ask: Registry, maxIterations: nat, turns: nat, sent: seq<seq<Message>>,
               end: Result<string, Error>, ops: seq<Op>, i: nat)
    requires Conversed(w, ask, maxIterations, turns, sent, end, ops) && i < |sent|
    ensures |sent| == turns && Conversation(w, ask, i).Some?
    ensures sent[i] == Request(w.layers(i + 1), Conversation(w, ask, i).value.history)
  {
    assert turns > 0;
    RequestAt(w, ask, turns, 0);
    RequestAt(w, ask, turns, i);
  }

  /** So a later request shows everything an earlier one did, and more. */
  lemma LaterRequestsShowMore(w: World, ask: Registry, maxIterations: nat, turns: nat, sent: seq<seq<Message>>,
                              end: Result<string, Error>, ops: seq<Op>, i: nat, j: nat)
    requires Conversed(w, ask, maxIterations, turns, sent, end, ops) && i < j < |sent|
    ensures Spoken(sent[i]) < Spoken(sent[j])
  {
    RequestsCarryTheTalk(w, ask, maxIterations, turns, sent, end, ops, i);
    RequestsCarryTheTalk(w, ask, maxIterations, turns, sent, end, ops, j);
    HistoryExtends(w, ask, i, j);
  }

  /** The arguments of a call as the tool gets them: none if they cannot be parsed. */
  ghost function ArgsOf(w: World, call: ToolCall): Args {
    match w.loads(call.arguments)
    case Loaded(args) => args
    case _ => "{}"
  }

  /** The first `j` calls of a reply as operations on the tool cache. */
  ghost function OpsOf(w: World, turn: nat, calls: seq<ToolCall>, j: nat): seq<Op>
    requires j <= |calls|
  {
    seq(j, m requires 0 <= m < j =>
      Call(calls[m].name, ArgsOf(w, calls[m]), w.outcome(turn, m, calls[m].name, ArgsOf(w, calls[m]))))
  }

  /** The message answers the `j`-th call of a turn with what the registry said, given
      all earlier operations on the tool cache: that there is no such tool, the error
      unless it is empty, or the result as JSON. */
  ghost predicate AnswerSays(w: World, ask: Registry, turn: nat, j: nat, ops: seq<Op>, call: ToolCall, message: Message) {
    var args := ArgsOf(w, call);
    var answer := ask(ops, call.name, args, w.outcome(turn, j, call.name, args));
    && !w.loads(call.arguments).NotAnObject? && message.Tool? && message.callId == call.id
    && match answer
       case None => message.content == w.notAvailable(call.name)
       case Some(ToolResult(result, error, _)) =>
         if error == None || error == Some("") then Some(message.content) == w.dumps(result)
         else Some(message.content) == error
  }

  lemma OneCallSays(w: World, ask: Registry, turn: nat, j: nat, t: Talk, call: ToolCall) returns (message: Message)
    requires OneCall(w, ask, turn, j, t, call).Success?
    ensures AnswerSays(w, ask, turn, j, t.ops, call, message)
    ensures var args := ArgsOf(w, call);
            OneCall(w, ask, turn, j, t, call) ==
              Success(Talk(t.history + [message], t.ops + [Call(call.name, args, w.outcome(turn, j, call.name, args))]))
  {
    var history := OneCall(w, ask, turn, j, t, call).value.history;
    message := history[|history| - 1];
  }

  lemma {:induction false} CallsSay(w: World, ask: Registry, turn: nat, t: Talk, calls: seq<ToolCall>, j: nat)
    returns (added: seq<Message>)
    requires j <= |calls| && Calls(w, ask, turn, t, calls, j).Success?
    ensures Calls(w, ask, turn, t, calls, j) == Success(Talk(t.history + added, t.ops + OpsOf(w, turn, calls, j)))
    ensures |added| == j
    ensures forall m: nat :: m < j ==> AnswerSays(w, ask, turn, m, t.ops + OpsOf(w, turn, calls, m), calls[m], added[m])
  {
    added := [];
    if j > 0 {
      var before := CallsSay(w, ask, turn, t, calls, j - 1);
      var u := Calls(w, ask, turn, t, calls, j - 1).value;
      var message := OneCallSays(w, ask, turn, j - 1, u, calls[j - 1]);
      added := before + [message];
      assert t.history + before + [message] == t.history + added;
      OneMoreOp(w, turn, t.ops, calls, j);
    } else {
      assert t.history + [] == t.history && t.ops + OpsOf(w, turn, calls, 0) == t.ops;
    }
  }

  lemma OneMoreOp(w: World, turn: nat, ops: seq<Op>, calls: seq<ToolCall>, j: nat)
    requires 0 < j <= |calls|
    ensures var call := calls[j - 1];
            ops + OpsOf(w, turn, calls, j) ==
              ops + OpsOf(w, turn, calls, j - 1)
              + [Call(call.name, ArgsOf(w, call), w.outcome(turn, j - 1, call.name, ArgsOf(w, call)))]
  {
  }

  /** From `t` to `u` one reply was said that called tools, and each call was answered with
      what the registry said, given all calls made before it. */
  ghost predicate Round(w: World, ask: Registry, turn: nat, t: Talk, reply: Reply, answers: seq<Message>, u: Talk) {
    && reply.Reply? && reply.calls != [] && |answers| == |reply.calls|
    && u == Talk(t.history + [Assistant(reply.content, reply.calls)] + answers, t.ops + OpsOf(w, turn, reply.calls, |reply.calls|))
    && forall m: nat :: m < |answers| ==>
         AnswerSays(w, ask, turn, m, t.ops + OpsOf(w, turn, reply.calls, m), reply.calls[m], answers[m])
  }

  /** What one request adds to the one before: the reply to that one, and its answers. */
  lemma NextRequest(w: World, ask: Registry, maxIterations: nat, turns: nat, sent: seq<seq<Message>>,
                    end: Result<string, Error>, ops: seq<Op>, i: nat) returns (reply: Reply, answers: seq<Message>)
    requires Conversed(w, ask, maxIterations, turns, sent, end, ops) && i + 1 < |sent|
    ensures reply == w.reply(i, sent[i]) && reply.Reply?
    ensures Spoken(sent[i + 1]) == Spoken(sent[i]) + [Assistant(reply.content, reply.calls)] + answers
    ensures Conversation(w, ask, i).Some? && Conversation(w, ask, i + 1).Some?
    ensures Round(w, ask, i, Conversation(w, ask, i).value, reply, answers, Conversation(w, ask, i + 1).value)
  {
    SpokenAt(w, ask, maxIterations, turns, sent, end, ops, i);
    SpokenAt(w, ask, maxIterations, turns, sent, end, ops, i + 1);
    ConversationStep(w, ask, i + 1);
    reply, answers := TurnSays(w, ask, i, Conversation(w, ask, i).value);
  }

  lemma SpokenAt(w: World, ask: Registry, maxIterations: nat, turns: nat, sent: seq<seq<Message>>,
                 end: Result<string, Error>, ops: seq<Op>, i: nat)
    requires Conversed(w, ask, maxIterations, turns, sent, end, ops) && i < |sent|
    ensures Conversation(w, ask, i).Some? && Spoken(sent[i]) == Conversation(w, ask, i).value.history
    ensures sent[i] == Request(w.layers(i + 1), Conversation(w, ask, i).value.history)
  {
    SentAt(w, ask, maxIterations, turns, sent, end, ops, i);
    RequestsCarryTheTalk(w, ask, maxIterations, turns, sent, end, ops, i);
  }

  lemma TurnSays(w: World, ask: Registry, turn: nat, t: Talk) returns (reply: Reply, answers: seq<Message>)
    requires Turn(w, ask, turn, t).Continues?
    ensures reply == w.reply(turn, Request(w.layers(turn + 1), t.history))
    ensures Round(w, ask, turn, t, reply, answers, Turn(w, ask, turn, t).talk)
  {
    reply := w.reply(turn, Request(w.layers(turn + 1), t.history));
    var question := Assistant(reply.content, reply.calls);
    answers := CallsSay(w, ask, turn, Talk(t.history + [question], t.ops), reply.calls, |reply.calls|);
  }

  /** What the last reply of a stage makes of it. */
  ghost predicate DecidedBy(w: World, reply: Reply, end: Result<string, Error>) {
    match reply
    case GatewayRaised(message) => end == Failure(GatewayError(message))
    case Reply(content, calls) =>
      if calls == [] then
        match w.artifact(Clean(if content == None then "" else content.value))
        case Some(artifact) => end == Success(artifact)
        case None => end == Failure(MalformedArtifact)
      else
        end == Failure(ArgumentsNotAnObject) || end == Failure(NotSerialisable) || end == Failure(IterationLimit)
  }

  /** How a stage ends is decided by the reply to its last request: an answer without
      tool calls that parses, and nothing else, is a success. */
  lemma LastReplyDecides(w: World, ask: Registry, maxIterations: nat, turns: nat, sent: seq<seq<Message>>,
                         end: Result<string, Error>, ops: seq<Op>)
    requires Conversed(w, ask, maxIterations, turns, sent, end, ops)
    ensures |sent| == turns && (end == Failure(IterationLimit) ==> turns == maxIterations)
    ensures if sent == [] then end == Failure(IterationLimit) else DecidedBy(w, w.reply(turns - 1, sent[turns - 1]), end)
  {
    if turns > 0 {
      var t := LastTurn(w, ask, maxIterations, turns, sent, end, ops);
      TurnDecides(w, ask, turns - 1, t, end);
    }
  }

  lemma LastTurn(w: World, ask: Registry, maxIterations: nat, turns: nat, sent: seq<seq<Message>>,
                 end: Result<string, Error>, ops: seq<Op>) returns (t: Talk)
    requires Conversed(w, ask, maxIterations, turns, sent, end, ops) && turns > 0
    ensures |sent| == turns && sent[turns - 1] == Request(w.layers(turns), t.history)
    ensures TurnEnds(Turn(w, ask, turns - 1, t), end) && (end == Failure(IterationLimit) ==> turns == maxIterations)
  {
    t := Conversation(w, ask, turns - 1).value;
    RequestAt(w, ask, turns, turns - 1);
    EndIsTurn(w, ask, maxIterations, turns, end);
  }

  /** The end of a turn, as the end of the stage. */
  ghost predicate TurnEnds(turned: Turned, end: Result<string, Error>) {
    match turned
    case Answers(artifact) => end == Success(artifact)
    case Breaks(error) => end == Failure(error)
    case Continues(_) => end == Failure(IterationLimit)
  }

  lemma EndIsTurn(w: World, ask: Registry, maxIterations: nat, turns: nat, end: Result<string, Error>)
    requires turns > 0 && Conversation(w, ask, turns - 1).Some? && Ended(w, ask, maxIterations, turns, end)
    ensures TurnEnds(Turn(w, ask, turns - 1, Conversation(w, ask, turns - 1).value), end)
    ensures end == Failure(IterationLimit) ==> turns == maxIterations
  {
    NoLimitInTurn(w, ask, turns - 1, Conversation(w, ask, turns - 1).value);
    if end == Failure(IterationLimit) { ConversationStep(w, ask, turns); }
  }

  lemma NoLimitInTurn(w: World, ask: Registry, turn: nat, t: Talk)
    ensures Turn(w, ask, turn, t) != Breaks(IterationLimit)
  {
    BrokenCalls(w, ask, turn, t);
  }

  /** A turn that ends the stage, with an answer or an error or because it was the last. */
  lemma TurnDecides(w: World, ask: Registry, turn: nat, t: Talk, end: Result<string, Error>)
    requires TurnEnds(Turn(w, ask, turn, t), end)
    ensures DecidedBy(w, w.reply(turn, Request(w.layers(turn + 1), t.history)), end)
  {
    BrokenCalls(w, ask, turn, t);
  }

  lemma BrokenCalls(w: World, ask: Registry, turn: nat, t: Talk)
    ensures var reply := w.reply(turn, Request(w.layers(turn + 1), t.history));
            reply.Reply? && reply.calls != [] ==>
              match Turn(w, ask, turn, t)
              case Continues(_) => true
              case Answers(_) => false
              case Breaks(error) => error == ArgumentsNotAnObject || error == NotSerialisable
  {
    var reply := w.reply(turn, Request(w.layers(turn + 1), t.history));
    if reply.Reply? {
      var asked := Talk(t.history + [Assistant(reply.content, reply.calls)], t.ops);
      if Calls(w, ask, turn, asked, reply.calls, |reply.calls|).Failure? {
        CallErrors(w, ask, turn, asked, reply.calls, |reply.calls|);
      }
    }
  }

  lemma {:induction false} CallErrors(w: World, ask: Registry, turn: nat, t: Talk, calls: seq<ToolCall>, j: nat)
    requires j <= |calls| && Calls(w, ask, turn, t, calls, j).Failure?
    ensures Calls(w, ask, turn, t, calls, j).error == ArgumentsNotAnObject || Calls(w, ask, turn, t, calls, j).error == NotSerialisable
  {
    if Calls(w, ask, turn, t, calls, j - 1).Failure? { CallErrors(w, ask, turn, t, calls, j - 1); }
  }

  const TTL_HOURS: int := 24

  class StageAgent {
    const w: World
    const model: string
    const maxIterations: nat
    const cache: Responses.ResponseCache
    var requests: seq<seq<Message>>  // what was sent to the gateway

    constructor (world: World, modelName: string, limit: nat)
      ensures w == world && model == modelName && maxIterations == limit && requests == []
      ensures fresh(cache) && cache.Valid()
    {
      w, model, maxIterations := world, modelName, limit;
      cache := new Responses.ResponseCache();
      requests := [];
    }

    /** Executes the tool calls of one reply, in order; the first that breaks ends the stage. */
    method CallTools(turn: nat, calls: seq<ToolCall>, history: seq<Message>, toolCache: ToolCache)
      returns (longer: Result<seq<Message>, Error>)
      requires toolCache.Valid()
      modifies toolCache
      ensures toolCache.Valid() && toolCache.initial == old(toolCache.initial)
      ensures match Calls(w, CachedFrom(toolCache.initial), turn, Talk(history, old(toolCache.ops)), calls, |calls|)
              case Failure(e) => longer == Failure(e)
              case Success(u) => longer == Success(u.history) && toolCache.ops == u.ops
    {
      ghost var ask, t := CachedFrom(toolCache.initial), Talk(history, toolCache.ops);
      var messages := history;
      for j := 0 to |calls|
        invariant toolCache.Valid() && toolCache.initial == old(toolCache.initial)
        invariant Calls(w, ask, turn, t, calls, j) == Success(Talk(messages, toolCache.ops))
      {
        var call := calls[j];
        var loaded := w.loads(call.arguments);
        if loaded.NotAnObject? {
          StaysBroken(w, ask, turn, t, calls, j + 1, |calls|);
          return Failure(ArgumentsNotAnObject);
        }
        var answer := Execute(call.name, Arguments(loaded), (name: string, args: Args) => w.outcome(turn, j, name, args), toolCache);
        var text := ResultText(w, call.name, answer);
        if text.None? {
          StaysBroken(w, ask, turn, t, calls, j + 1, |calls|);
          return Failure(NotSerialisable);
        }
        messages := messages + [Tool(call.id, text.value)];
      }
      return Success(messages);
    }

    /** One pass through the loop: ask the model, then parse its answer or call its tools. */
    method TakeTurn(turn: nat, history: seq<Message>, toolCache: ToolCache)
      returns (end: Option<Result<string, Error>>, longer: seq<Message>)
      requires toolCache.Valid()
      modifies this`requests, toolCache
      ensures toolCache.Valid() && toolCache.initial == old(toolCache.initial)
      ensures requests == old(requests) + [Request(w.layers(turn + 1), history)]
      ensures Took(w, CachedFrom(toolCache.initial), turn, Talk(history, old(toolCache.ops)), end, Talk(longer, toolCache.ops))
    {
      longer := history;
      var request := Request(w.layers(turn + 1), history);
      requests := requests + [request];
      var reply := w.reply(turn, request);
      if reply.GatewayRaised? { return Some(Failure(GatewayError(reply.message))), history; }
      if reply.calls == [] {
        var artifact := w.artifact(Clean(if reply.content.Some? then reply.content.value else ""));
        return Some(if artifact.None? then Failure(MalformedArtifact) else Success(artifact.value)), history;
      }
      var called := CallTools(turn, reply.calls, history + [Assistant(reply.content, reply.calls)], toolCache);
      if called.Failure? { return Some(Failure(called.error)), history; }
      return None, called.value;
    }

    /** The loop over model and tools. */
    method Converse(toolCache: ToolCache)
      returns (end: Result<string, Error>, ghost turns: nat, ghost sent: seq<seq<Message>>)
      requires toolCache.Valid() && toolCache.ops == []
      modifies this`requests, toolCache
      ensures toolCache.Valid() && toolCache.initial == old(toolCache.initial) && requests == old(requests) + sent
      ensures Conversed(w, CachedFrom(toolCache.initial), maxIterations, turns, sent, end, toolCache.ops)
    {
      ghost var ask := CachedFrom(toolCache.initial);
      var history: seq<Message> := [];
      sent := [];
      assert requests == old(requests) + sent;
      var stop: Option<Result<string, Error>>, iteration := None, 0;
      while iteration < maxIterations && stop.None?
        invariant iteration <= maxIterations
        invariant toolCache.Valid() && toolCache.initial == old(toolCache.initial)
        invariant Looping(w, ask, maxIterations, iteration, sent, stop, Talk(history, toolCache.ops))
        invariant requests == old(requests) + sent
      {
        ghost var t := Talk(history, toolCache.ops);
        stop, history := TakeTurn(iteration, history, toolCache);
        NextTurn(w, ask, maxIterations, iteration, t, sent, stop, Talk(history, toolCache.ops));
        sent := sent + [Request(w.layers(iteration + 1), t.history)];
        iteration := iteration + 1;
      }
      turns := iteration;
      if stop.None? { LoopIsOver(w, ask, maxIterations, Talk(history, toolCache.ops), sent); }
      end := if stop.Some? then stop.value else Failure(IterationLimit);
    }

    /** A cached answer needs no model.  Otherwise the loop decides; only a completed
        stage writes the response cache and hands its tool cache back to the run. */
    method Run(state: StageState, now: real, later: real)
      returns (r: StageResult, ghost turns: nat, ghost sent: seq<seq<Message>>)
      requires cache.Valid()
      modifies this`requests, cache, state
      ensures cache.Valid()
      ensures requests == old(requests) + sent
      ensures var start := old(state.toolCache);
              var ask := CachedFrom(start);
              var served := Responses.Served(old(cache.history), Responses.Key(CacheKey(w), model), now);
              var looked := old(cache.history) + [Responses.Get(CacheKey(w), model, now)];
              if served.Some? then
                && r == StageResult(Completed, served, None, true) && sent == []
                && cache.history == looked && state.toolCache == start
              else if r.status == Completed then
                && r.artifact.Some? && r == StageResult(Completed, r.artifact, None, false) && turns > 0
                && cache.history == looked + [Responses.Set(CacheKey(w), model, r.artifact.value, 24, later)]
                && exists ops :: Conversed(w, ask, maxIterations, turns, sent, Success(r.artifact.value), ops) &&
                                 state.toolCache == After(start, ops)
              else
                && r.error.Some? && r == StageResult(Failed, None, r.error, false)
                && cache.history == looked && cache.rows == old(cache.rows) && state.toolCache == start
                && exists ops :: Conversed(w, ask, maxIterations, turns, sent, Failure(r.error.value), ops)
    {
      turns, sent := 0, [];
      assert requests == old(requests) + sent;
      var key := CacheKey(w);
      var cached := cache.Get(key, model, now);
      if cached.Some? { return StageResult(Completed, cached, None, true), turns, sent; }
      var toolCache := new ToolCache(state.toolCache);
      var end;
      end, turns, sent := Converse(toolCache);
      if end.Failure? { return StageResult(Failed, None, Some(end.error), false), turns, sent; }
      cache.Set(key, model, end.value, TTL_HOURS, later);
      state.toolCache := toolCache.store;
      return StageResult(Completed, Some(end.value), None, false), turns, sent;
    }
  }

  lemma {:induction false} StaysBroken(w: World, ask: Registry, turn: nat, t: Talk, calls: seq<ToolCall>, j: nat, k: nat)
    requires j <= k <= |calls| && Calls(w, ask, turn, t, calls, j).Failure?
    ensures Calls(w, ask, turn, t, calls, k) == Calls(w, ask, turn, t, calls, j)
  {
    if j < k { StaysBroken(w, ask, turn, t, calls, j, k - 1); }
  }
}
