/** Prices, the daily token budget, and the order of the gateway's steps. */
module Accounting {
  import opened Wrappers
  import opened Auth
  import opened SlidingWindow

  // ---- cost ------------------------------------------------------------------

  /** Prices per token in hundredths of a micro-dollar. */
  datatype Price = Price(input: nat, output: nat)

  datatype Usage = Usage(tokensIn: nat, tokensOut: nat)

  function PriceOf(model: string): Price {
    if model == "gpt-4o-mini" then Price(15, 60)
    else if model == "o1-mini" then Price(300, 1200)
    else Price(250, 1000)  // gpt-4o, and the fallback for unknown models
  }

  function ExactCost(model: string, usage: Usage): nat {
    usage.tokensIn * PriceOf(model).input + usage.tokensOut * PriceOf(model).output
  }

  /** Hundredths rounded to whole micro-dollars, ties to the even one. */
  function Rounded(hundredths: nat): (micros: nat)
    ensures -50 <= 100 * micros - hundredths <= 50
    ensures (100 * micros - hundredths == 50 || 100 * micros - hundredths == -50) ==> micros % 2 == 0
  {
    var whole, rest := hundredths / 100, hundredths % 100;
    if rest < 50 || (rest == 50 && whole % 2 == 0) then whole else whole + 1
  }

  datatype Row = Row(owner: string, day: int, tokens: nat, model: string, usage: Usage, cost: nat)

  function Recorded(owner: string, day: int, model: string, usage: Usage): Row {
    Row(owner, day, usage.tokensIn + usage.tokensOut, model, usage, Rounded(ExactCost(model, usage)))
  }

  /** The price list: dollars for 1,000 tokens in and out. */
  ghost function ListPrice(model: string): (real, real) {
    if model == "gpt-4o-mini" then (0.00015, 0.0006) else if model == "o1-mini" then (0.003, 0.012) else (0.0025, 0.01)
  }

  /** A row records, in micro-dollars, the list price of its tokens to the nearest one. */
  lemma CostIsListPrice(owner: string, day: int, model: string, usage: Usage)
    ensures var row := Recorded(owner, day, model, usage);
            var dollars := usage.tokensIn as real / 1000.0 * ListPrice(model).0
                         + usage.tokensOut as real / 1000.0 * ListPrice(model).1;
            && -0.0000005 <= row.cost as real / 1000000.0 - dollars <= 0.0000005
            && row.tokens == usage.tokensIn + usage.tokensOut && row.owner == owner && row.day == day
  {
    ExactInDollars(model, usage);
  }

  lemma ExactInDollars(model: string, usage: Usage)
    ensures ExactCost(model, usage) as real / 100000000.0 ==
              usage.tokensIn as real / 1000.0 * ListPrice(model).0 + usage.tokensOut as real / 1000.0 * ListPrice(model).1
  {
    var i, o := usage.tokensIn, usage.tokensOut;
    assert (i * 15 + o * 60) as real == i as real * 15.0 + o as real * 60.0;
    assert (i * 300 + o * 1200) as real == i as real * 300.0 + o as real * 1200.0;
    assert (i * 250 + o * 1000) as real == i as real * 250.0 + o as real * 1000.0;
  }

  ghost function TotalCost(rows: seq<Row>): nat {
    if rows == [] then 0 else TotalCost(rows[..|rows| - 1]) + rows[|rows| - 1].cost
  }

  ghost function TotalExact(rows: seq<Row>): nat {
    if rows == [] then 0
    else TotalExact(rows[..|rows| - 1]) + ExactCost(rows[|rows| - 1].model, rows[|rows| - 1].usage)
  }

  ghost predicate Priced(rows: seq<Row>) {
    forall i :: 0 <= i < |rows| ==>
      rows[i] == Recorded(rows[i].owner, rows[i].day, rows[i].model, rows[i].usage)
  }

  /** The recorded total is off by at most half a micro-dollar a call. */
  lemma {:induction false} CostIsWithinHalfAMicro(rows: seq<Row>)
    requires Priced(rows)
    ensures -50 * |rows| <= 100 * TotalCost(rows) - TotalExact(rows) <= 50 * |rows|
  {
    if rows != [] { CostIsWithinHalfAMicro(rows[..|rows| - 1]); }
  }

  // ---- the daily budget ---------------------------------------------------------

  const UNLIMITED := -1

  /** Tokens charged today to the runs a user triggered. */
  function Used(rows: seq<Row>, owner: string, day: int): nat {
    if rows == [] then 0
    else Used(rows[..|rows| - 1], owner, day) +
         if rows[|rows| - 1].owner == owner && rows[|rows| - 1].day == day then rows[|rows| - 1].tokens else 0
  }

  predicate WithinBudget(budget: int, used: nat, estimated: nat) {
    budget == UNLIMITED || used + estimated <= budget
  }

  /** One call as the books see it.  The budget checked is the caller's; the tokens
      are charged to the owner of the run.  `usage` is `None` if another step
      stopped the call. */
  datatype Attempt = Attempt(caller: string, owner: string, day: int, budget: int, estimated: nat,
                             model: string, usage: Option<Usage>)

  predicate Admitted(rows: seq<Row>, a: Attempt) {
    WithinBudget(a.budget, Used(rows, a.caller, a.day), a.estimated)
  }

  /** The metrics rows after a sequence of calls, one after the other. */
  ghost function Ledger(calls: seq<Attempt>): seq<Row> {
    if calls == [] then []
    else
      var rows, a := Ledger(calls[..|calls| - 1]), calls[|calls| - 1];
      if Admitted(rows, a) && a.usage.Some? then rows + [Recorded(a.owner, a.day, a.model, a.usage.value)] else rows
  }

  /** What the ledger of any calls costs is off by at most half a micro-dollar a row. */
  lemma {:induction false} LedgerIsPriced(calls: seq<Attempt>)
    ensures Priced(Ledger(calls))
    ensures -50 * |Ledger(calls)| <= 100 * TotalCost(Ledger(calls)) - TotalExact(Ledger(calls)) <= 50 * |Ledger(calls)|
  {
    if calls != [] { LedgerIsPriced(calls[..|calls| - 1]); }
    CostIsWithinHalfAMicro(Ledger(calls));
  }

  ghost predicate Charged(calls: seq<Attempt>, k: nat)
    requires k < |calls|
  {
    calls[k].usage.Some? && Admitted(Ledger(calls[..k]), calls[k])
  }

  function Actual(usage: Usage): nat {
    usage.tokensIn + usage.tokensOut
  }

  /** Everything charged to `user` on `day` was called by `user`, under one budget. */
  ghost predicate OwnCallsOnly(calls: seq<Attempt>, user: string, day: int, budget: int) {
    forall k :: 0 <= k < |calls| && calls[k].owner == user && calls[k].day == day ==>
      calls[k].caller == user && calls[k].budget == budget
  }

  /** The bound: some charged call overran the budget by no more than it overran
      its own estimate. */
  ghost predicate Overrun(calls: seq<Attempt>, user: string, day: int, budget: int, k: nat)
    requires k < |calls|
  {
    Charged(calls, k) && calls[k].owner == user && calls[k].day == day &&
    Used(Ledger(calls), user, day) + calls[k].estimated <= budget + Actual(calls[k].usage.value)
  }

  /** Recorded tokens of a day never exceed the budget plus what the last charged
      call used beyond its estimate. */
  lemma {:induction false} BudgetBound(calls: seq<Attempt>, user: string, day: int, budget: int)
    requires OwnCallsOnly(calls, user, day, budget) && budget != UNLIMITED
    ensures Bounded(calls, user, day, budget)
  {
    if calls != [] {
      var n := |calls| - 1;
      var rows, a := Ledger(calls[..n]), calls[n];
      BudgetBound(calls[..n], user, day, budget);
      if Charged(calls, n) {
        var row := Recorded(a.owner, a.day, a.model, a.usage.value);
        assert (rows + [row])[..|rows|] == rows;
        if a.owner == user && a.day == day { assert Overrun(calls, user, day, budget, n); }
      }
      if Ledger(calls) == rows || a.owner != user || a.day != day {
        assert Used(Ledger(calls), user, day) == Used(rows, user, day);
        if k :| 0 <= k < n && Overrun(calls[..n], user, day, budget, k) {
          assert calls[..n][..k] == calls[..k];
          assert Overrun(calls, user, day, budget, k);
        }
      }
    }
  }

  /** Calls of one user on one user's runs, on one day. */
  ghost predicate AllFrom(calls: seq<Attempt>, caller: string, owner: string, day: int, budget: int) {
    forall k :: 0 <= k < |calls| ==>
      calls[k].caller == caller && calls[k].owner == owner && calls[k].day == day && calls[k].budget == budget
  }

  ghost predicate Bounded(calls: seq<Attempt>, owner: string, day: int, budget: int) {
    Used(Ledger(calls), owner, day) == 0 || exists k :: 0 <= k < |calls| && Overrun(calls, owner, day, budget, k)
  }

  /** Two calls, each one token over a whole budget. */
  ghost function TwoLargeCalls(caller: string, owner: string, day: int, budget: nat): seq<Attempt> {
    var a := Attempt(caller, owner, day, budget, 0, "gpt-4o", Some(Usage(budget + 1, 0)));
    [a, a]
  }

  lemma TwoLargeCallsLedger(caller: string, owner: string, day: int, budget: nat)
    requires caller != owner
    ensures var row := Recorded(owner, day, "gpt-4o", Usage(budget + 1, 0));
            Ledger(TwoLargeCalls(caller, owner, day, budget)) == [row, row]
  {
    var a := Attempt(caller, owner, day, budget, 0, "gpt-4o", Some(Usage(budget + 1, 0)));
    var row := Recorded(owner, day, "gpt-4o", Usage(budget + 1, 0));
    assert Used([], caller, day) == 0;
    Books([], [], a, row);
    NotCharged(row, caller, day);
    Books([a], [row], a, row);
  }

  /** An admitted call adds its row. */
  lemma Books(calls: seq<Attempt>, rows: seq<Row>, a: Attempt, row: Row)
    requires Ledger(calls) == rows && Admitted(rows, a) && a.usage.Some?
    requires row == Recorded(a.owner, a.day, a.model, a.usage.value)
    ensures Ledger(calls + [a]) == rows + [row]
  {
    assert (calls + [a])[..|calls|] == calls;
  }

  lemma NotCharged(row: Row, user: string, day: int)
    requires row.owner != user
    ensures Used([row], user, day) == 0
  {
    assert [row][..0] == [];
  }

  lemma UsedTwice(row: Row)
    ensures Used([row, row], row.owner, row.day) == 2 * row.tokens
  {
    assert [row, row][..1] == [row] && [row][..0] == [];
    assert Used([row], row.owner, row.day) == row.tokens;
  }

  /** Calls under someone else's token are checked against the caller's budget but
      charged to the owner of the run, so nothing stops them. */
  lemma ForeignCallsBreakTheBound(caller: string, owner: string, day: int, budget: nat)
    requires caller != owner
    ensures AllFrom(TwoLargeCalls(caller, owner, day, budget), caller, owner, day, budget)
    ensures Used(Ledger(TwoLargeCalls(caller, owner, day, budget)), owner, day) == 2 * budget + 2
    ensures !Bounded(TwoLargeCalls(caller, owner, day, budget), owner, day, budget)
  {
    TwoLargeCallsLedger(caller, owner, day, budget);
    UsedTwice(Recorded(owner, day, "gpt-4o", Usage(budget + 1, 0)));
  }

  /** The bound holds for all calls of a user on an owner's runs exactly when the
      two are the same user. */
  lemma BoundIffOwner(caller: string, owner: string, day: int, budget: nat)
    ensures (forall calls :: AllFrom(calls, caller, owner, day, budget) ==> Bounded(calls, owner, day, budget)) <==> caller == owner
  {
    if caller == owner {
      forall calls | AllFrom(calls, caller, owner, day, budget) ensures Bounded(calls, owner, day, budget) {
        BudgetBound(calls, owner, day, budget);
      }
    } else {
      ForeignCallsBreakTheBound(caller, owner, day, budget);
    }
  }

  // ---- the gateway -----------------------------------------------------------------

  datatype Reply = Answer(usage: Usage) | TpmLimited | ModelError

  datatype Refusal =
    | NotAuthenticated(denial: Denial)
    | NotAuthorised
    | OverBudget
    | RateLimited
    | InputRefused
    | ModelFailed(last: Reply)
    | OutputRefused

  const MAX_RETRIES: nat := 3
  const BACKOFF_SECONDS: nat := 15

  function Power2(n: nat): nat { if n == 0 then 1 else 2 * Power2(n - 1) }

  /** `sum(len(content)) // 4` over the messages. */
  function TotalLength(messages: seq<string>): nat {
    if messages == [] then 0 else |messages[0]| + TotalLength(messages[1..])
  }

  /** All contents, one after the other. */
  ghost function Joined(messages: seq<string>): string {
    if messages == [] then "" else messages[0] + Joined(messages[1..])
  }

  lemma {:induction false} LengthIsJoined(messages: seq<string>)
    ensures TotalLength(messages) == |Joined(messages)|
  {
    if messages != [] { LengthIsJoined(messages[1..]); }
  }

  function Estimate(messages: seq<string>): nat { TotalLength(messages) / 4 }

  /** The reply a caller gets to see: the first that is no tokens-per-minute refusal,
      or the last one allowed. */
  function FinalReply(model: nat -> Reply, k: nat): Reply
    requires k <= MAX_RETRIES
    decreases MAX_RETRIES - k
  {
    if model(k) != TpmLimited || k == MAX_RETRIES then model(k) else FinalReply(model, k + 1)
  }

  /** Up to four tries; only a tokens-per-minute refusal is retried, after a wait that doubles. */
  method CallModel(model: nat -> Reply) returns (reply: Reply, tries: nat, waited: nat)
    ensures 1 <= tries <= 4 && reply == model(tries - 1) == FinalReply(model, 0)
    ensures forall i :: 0 <= i < tries - 1 ==> model(i) == TpmLimited
    ensures reply == TpmLimited ==> tries == 4
    ensures waited == [0, 15, 45, 105][tries - 1]
  {
    var attempt := 0;
    waited := 0;
    while true
      invariant 0 <= attempt <= MAX_RETRIES
      invariant forall i :: 0 <= i < attempt ==> model(i) == TpmLimited
      invariant FinalReply(model, attempt) == FinalReply(model, 0)
      invariant waited == BACKOFF_SECONDS * (Power2(attempt) - 1)
      decreases MAX_RETRIES - attempt
    {
      reply := model(attempt);
      if reply != TpmLimited || attempt == MAX_RETRIES { return reply, attempt + 1, waited; }
      waited := waited + BACKOFF_SECONDS * Power2(attempt);
      attempt := attempt + 1;
    }
  }

  /** The verdict on the call of a known user, by the first step that refuses. */
  function Decision(user: User, affordable: bool, allowed: bool, inputOk: bool, reply: Reply, outputOk: bool): Result<Usage, Refusal> {
    if "trigger_run" !in user.permissions then Failure(NotAuthorised)
    else if !affordable then Failure(OverBudget)
    else if !allowed then Failure(RateLimited)
    else if !inputOk then Failure(InputRefused)
    else if !reply.Answer? then Failure(ModelFailed(reply))
    else if !outputOk then Failure(OutputRefused)
    else Success(reply.usage)
  }

  /** A request, and what the guards, the clock and the model make of it. */
  datatype Request = Request(token: string, owner: string, day: int, now: real, model: string, messages: seq<string>,
                             inputOk: bool, replies: nat -> Reply, outputOk: bool)

  /** Try `k` is the last: everything before it was a tokens-per-minute refusal. */
  ghost predicate LastTry(replies: nat -> Reply, k: nat) {
    k <= 3 && (forall i: nat :: i < k ==> replies(i) == TpmLimited) && (replies(k) != TpmLimited || k == 3)
  }

  lemma {:induction false} FinalIsLastTry(replies: nat -> Reply, from: nat, k: nat)
    requires from <= k && LastTry(replies, k)
    ensures FinalReply(replies, from) == replies(k)
    decreases k - from
  {
    if from < k { FinalIsLastTry(replies, from + 1, k); }
  }

  lemma LastTryExists(replies: nat -> Reply) returns (k: nat)
    ensures LastTry(replies, k) && FinalReply(replies, 0) == replies(k)
  {
    k := if replies(0) != TpmLimited then 0 else if replies(1) != TpmLimited then 1
         else if replies(2) != TpmLimited then 2 else 3;
    FinalIsLastTry(replies, 0, k);
  }

  ghost predicate HasPermission(d: Directory, token: string) {
    Known(d, token) && Owns(d.roles, d.users[token].role, "trigger_run")
  }

  /** What was used today and a quarter of the characters fit into the budget of the
      caller's role; no budget counts as 50,000 tokens, and -1 is unlimited. */
  ghost predicate Fits(d: Directory, rows: seq<Row>, r: Request) {
    Known(d, r.token) &&
    var used := Used(rows, d.users[r.token].login, r.day) + |Joined(r.messages)| / 4;
    match d.roles[d.users[r.token].role].budget
    case None => used <= 50_000
    case Some(budget) => budget == -1 || used <= budget
  }

  /** Fewer than 200 of the caller's accepted calls are less than 60 seconds old. */
  ghost predicate InRate(d: Directory, calls: seq<SlidingWindow.Call>, r: Request) {
    Known(d, r.token) &&
    var times := AcceptedTimes(calls, d.users[r.token].login);
    |set i: nat | i < |times| && r.now - times[i] < 60.0| < 200
  }

  ghost predicate ModelAnswers(replies: nat -> Reply) {
    exists k :: LastTry(replies, k) && replies(k).Answer?
  }

  /** The checks a request has to pass, in order. */
  ghost predicate Passes(d: Directory, rows: seq<Row>, calls: seq<SlidingWindow.Call>, r: Request, step: nat) {
    match step
    case 0 => Known(d, r.token)
    case 1 => HasPermission(d, r.token)
    case 2 => Fits(d, rows, r)
    case 3 => InRate(d, calls, r)
    case 4 => r.inputOk
    case 5 => ModelAnswers(r.replies)
    case _ => r.outputOk
  }

  function StepOf(refusal: Refusal): nat {
    match refusal
    case NotAuthenticated(_) => 0
    case NotAuthorised => 1
    case OverBudget => 2
    case RateLimited => 3
    case InputRefused => 4
    case ModelFailed(_) => 5
    case OutputRefused => 6
  }

  /** A request succeeds exactly if it passes all seven checks, with the usage of the
      last try; otherwise the refusal names the first check it does not pass. */
  ghost predicate Verdict(d: Directory, rows: seq<Row>, calls: seq<SlidingWindow.Call>, r: Request,
                          result: Result<Usage, Refusal>) {
    match result
    case Success(usage) =>
      && (forall step: nat :: step < 7 ==> Passes(d, rows, calls, r, step))
      && exists k :: LastTry(r.replies, k) && r.replies(k) == Answer(usage)
    case Failure(refusal) =>
      && (forall step: nat :: step < StepOf(refusal) ==> Passes(d, rows, calls, r, step))
      && !Passes(d, rows, calls, r, StepOf(refusal))
      && (refusal.NotAuthenticated? ==>
            refusal.denial == if r.token !in d.users then UnknownToken
                              else if Ends(d.roles, d.users[r.token].role) then UnknownRole else EndlessRole)
      && (refusal.ModelFailed? ==> exists k :: LastTry(r.replies, k) && r.replies(k) == refusal.last)
  }

  lemma VerdictOfUnknown(d: Directory, rows: seq<Row>, calls: seq<SlidingWindow.Call>, r: Request, denial: Denial)
    requires Resolve(d, r.token) == Failure(denial)
    ensures Verdict(d, rows, calls, r, Failure(NotAuthenticated(denial)))
  {
    ResolveIff(d, r.token, User("", "", [], 0));
  }

  /** What the steps compute from the resolved user is what the checks ask. */
  lemma ChecksOfKnown(d: Directory, rows: seq<Row>, calls: seq<SlidingWindow.Call>, r: Request, user: User)
    requires Resolve(d, r.token) == Success(user)
    ensures Passes(d, rows, calls, r, 0)
    ensures Passes(d, rows, calls, r, 1) <==> "trigger_run" in user.permissions
    ensures Passes(d, rows, calls, r, 2) <==> WithinBudget(user.budget, Used(rows, user.login, r.day), Estimate(r.messages))
    ensures Passes(d, rows, calls, r, 3) <==> Allowed(calls, SlidingWindow.Call(user.login, r.now))
  {
    ResolveIff(d, r.token, user);
    LengthIsJoined(r.messages);
  }

  lemma CheckOfModel(d: Directory, rows: seq<Row>, calls: seq<SlidingWindow.Call>, r: Request)
    ensures Passes(d, rows, calls, r, 5) <==> FinalReply(r.replies, 0).Answer?
    ensures exists k :: LastTry(r.replies, k) && r.replies(k) == FinalReply(r.replies, 0)
  {
    var k := LastTryExists(r.replies);
    forall j | LastTry(r.replies, j) ensures r.replies(j) == FinalReply(r.replies, 0) { FinalIsLastTry(r.replies, 0, j); }
  }

  lemma VerdictOfKnown(d: Directory, rows: seq<Row>, calls: seq<SlidingWindow.Call>, r: Request, user: User,
                       affordable: bool, allowed: bool, result: Result<Usage, Refusal>)
    requires Resolve(d, r.token) == Success(user)
    requires affordable == WithinBudget(user.budget, Used(rows, user.login, r.day), Estimate(r.messages))
    requires allowed == Allowed(calls, SlidingWindow.Call(user.login, r.now))
    requires result == Decision(user, affordable, allowed, r.inputOk, FinalReply(r.replies, 0), r.outputOk)
    ensures Verdict(d, rows, calls, r, result)
  {
    ChecksOfKnown(d, rows, calls, r, user);
    CheckOfModel(d, rows, calls, r);
    StepsBelow(d, rows, calls, r, if result.Failure? then StepOf(result.error) else 7);
  }

  lemma StepsBelow(d: Directory, rows: seq<Row>, calls: seq<SlidingWindow.Call>, r: Request, n: nat)
    requires n <= 7
    requires n > 0 ==> Passes(d, rows, calls, r, 0)
    requires n > 1 ==> Passes(d, rows, calls, r, 1)
    requires n > 2 ==> Passes(d, rows, calls, r, 2)
    requires n > 3 ==> Passes(d, rows, calls, r, 3)
    requires n > 4 ==> Passes(d, rows, calls, r, 4)
    requires n > 5 ==> Passes(d, rows, calls, r, 5)
    requires n > 6 ==> Passes(d, rows, calls, r, 6)
    ensures forall step: nat :: step < n ==> Passes(d, rows, calls, r, step)
  {
  }

  /** The verdict is unambiguous: no two results fit one request. */
  lemma OneVerdict(d: Directory, rows: seq<Row>, calls: seq<SlidingWindow.Call>, r: Request,
                   one: Result<Usage, Refusal>, two: Result<Usage, Refusal>)
    requires Verdict(d, rows, calls, r, one) && Verdict(d, rows, calls, r, two)
    ensures one == two
  {
    if one.Failure? && two.Failure? {
      assert StepOf(one.error) == StepOf(two.error);
    }
    forall j, k | LastTry(r.replies, j) && LastTry(r.replies, k) ensures r.replies(j) == r.replies(k) {
      FinalIsLastTry(r.replies, 0, j);
      FinalIsLastTry(r.replies, 0, k);
    }
  }

  /** The books agree with the calls made so far. */
  ghost predicate InBooks(metrics: seq<Row>, attempts: seq<Attempt>) {
    metrics == Ledger(attempts)
  }

  lemma RefusedStays(metrics: seq<Row>, attempts: seq<Attempt>, a: Attempt)
    requires InBooks(metrics, attempts) && a.usage.None?
    ensures InBooks(metrics, attempts + [a])
  {
    assert (attempts + [a])[..|attempts|] == attempts;
  }

  lemma ChargedIsBooked(metrics: seq<Row>, attempts: seq<Attempt>, a: Attempt)
    requires InBooks(metrics, attempts) && a.usage.Some? && Admitted(metrics, a)
    ensures InBooks(metrics + [Recorded(a.owner, a.day, a.model, a.usage.value)], attempts + [a])
  {
    assert (attempts + [a])[..|attempts|] == attempts;
  }

  class Gateway {
    const directory: Directory
    const limiter: RateLimiter
    var metrics: seq<Row>
    ghost var attempts: seq<Attempt>  // every call that came as far as the budget

    ghost predicate Valid()
      reads this, limiter
    {
      limiter.Valid() && InBooks(metrics, attempts)
    }

    constructor (d: Directory, now: real)
      ensures Valid() && fresh(limiter) && directory == d && metrics == [] && attempts == []
    {
      directory := d;
      limiter := new RateLimiter(now);
      metrics, attempts := [], [];
    }

    ghost method Refuse(a: Attempt)
      requires InBooks(metrics, attempts) && a.usage.None?
      modifies this`attempts
      ensures InBooks(metrics, attempts)
    {
      RefusedStays(metrics, attempts, a);
      attempts := attempts + [a];
    }

    /** One row for an answered call. */
    method Charge(a: Attempt)
      requires InBooks(metrics, attempts) && a.usage.Some? && Admitted(metrics, a)
      modifies this`metrics, this`attempts
      ensures InBooks(metrics, attempts)
      ensures metrics == old(metrics) + [Recorded(a.owner, a.day, a.model, a.usage.value)]
    {
      ChargedIsBooked(metrics, attempts, a);
      attempts := attempts + [a];
      metrics := metrics + [Recorded(a.owner, a.day, a.model, a.usage.value)];
    }

    /** From the input checks on: the model, the output check, the record. */
    method Complete(user: User, a: Attempt, inputOk: bool, replies: nat -> Reply, outputOk: bool)
      returns (result: Result<Usage, Refusal>)
      requires InBooks(metrics, attempts) && a.usage.None? && Admitted(metrics, a) && "trigger_run" in user.permissions
      modifies this`metrics, this`attempts
      ensures InBooks(metrics, attempts)
      ensures metrics == if result.Success? then old(metrics) + [Recorded(a.owner, a.day, a.model, result.value)] else old(metrics)
      ensures result == Decision(user, true, true, inputOk, FinalReply(replies, 0), outputOk)
    {
      if !inputOk {
        Refuse(a);
        return Failure(InputRefused);
      }
      var reply, tries, waited := CallModel(replies);
      if !reply.Answer? || !outputOk {
        Refuse(a);
        return Failure(if !reply.Answer? then ModelFailed(reply) else OutputRefused);
      }
      Charge(a.(usage := Some(reply.usage)));
      return Success(reply.usage);
    }

    /** The steps in order: authenticate, authorise, budget, rate limit, and the rest.
        The first step that refuses decides; only an answered call is recorded, and one
        refused before the rate limiter does not use up a slot of it. */
    method Call(r: Request) returns (result: Result<Usage, Refusal>)
      requires Valid() && limiter.clock <= r.now
      modifies this`metrics, this`attempts, limiter
      ensures Valid()
      ensures Verdict(directory, old(metrics), old(limiter.calls), r, result)
      ensures metrics == if result.Success? then old(metrics) + [Recorded(r.owner, r.day, r.model, result.value)] else old(metrics)
      ensures if result.Failure? && StepOf(result.error) < 3 then limiter.calls == old(limiter.calls)
              else r.token in directory.users &&
                   limiter.calls == old(limiter.calls) + [SlidingWindow.Call(directory.users[r.token].login, r.now)]
    {
      var resolved := Resolve(directory, r.token);
      if resolved.Failure? {
        VerdictOfUnknown(directory, metrics, limiter.calls, r, resolved.error);
        return Failure(NotAuthenticated(resolved.error));
      }
      result := CallAs(resolved.value, r);
    }

    /** The call of a known user. */
    method CallAs(user: User, r: Request) returns (result: Result<Usage, Refusal>)
      requires Valid() && limiter.clock <= r.now && Resolve(directory, r.token) == Success(user)
      modifies this`metrics, this`attempts, limiter
      ensures Valid()
      ensures Verdict(directory, old(metrics), old(limiter.calls), r, result)
      ensures result.Failure? ==> !result.error.NotAuthenticated?
      ensures metrics == if result.Success? then old(metrics) + [Recorded(r.owner, r.day, r.model, result.value)] else old(metrics)
      ensures limiter.calls ==
                if result.Failure? && StepOf(result.error) < 3 then old(limiter.calls)
                else old(limiter.calls) + [SlidingWindow.Call(user.login, r.now)]
    {
      ghost var affordable := WithinBudget(user.budget, Used(metrics, user.login, r.day), Estimate(r.messages));
      ghost var allowed := Allowed(limiter.calls, SlidingWindow.Call(user.login, r.now));
      result := Decide(user, r);
      VerdictOfKnown(directory, old(metrics), old(limiter.calls), r, user, affordable, allowed, result);
    }

    /** The steps after authentication, by the first that refuses. */
    method Decide(user: User, r: Request) returns (result: Result<Usage, Refusal>)
      requires Valid() && limiter.clock <= r.now
      modifies this`metrics, this`attempts, limiter
      ensures Valid()
      ensures metrics == if result.Success? then old(metrics) + [Recorded(r.owner, r.day, r.model, result.value)] else old(metrics)
      ensures result == Decision(user, WithinBudget(user.budget, Used(old(metrics), user.login, r.day), Estimate(r.messages)),
                                 Allowed(old(limiter.calls), SlidingWindow.Call(user.login, r.now)),
                                 r.inputOk, FinalReply(r.replies, 0), r.outputOk)
      ensures limiter.calls ==
                if result.Failure? && StepOf(result.error) < 3 then old(limiter.calls)
                else old(limiter.calls) + [SlidingWindow.Call(user.login, r.now)]
    {
      if "trigger_run" !in user.permissions { return Failure(NotAuthorised); }
      var a := Attempt(user.login, r.owner, r.day, user.budget, Estimate(r.messages), r.model, None);
      if !Admitted(metrics, a) {
        Refuse(a);
        return Failure(OverBudget);
      }
      var allowed := limiter.Check(user.login, r.now);
      if !allowed {
        Refuse(a);
        return Failure(RateLimited);
      }
      result := Complete(user, a, r.inputOk, r.replies, r.outputOk);
    }
  }
}
