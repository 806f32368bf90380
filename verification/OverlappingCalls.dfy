/** The daily budget when calls overlap: parallel stages share one gateway, and a call is
    checked when it begins but recorded when it ends. */
module OverlappingCalls {
  import opened Wrappers
  import opened Accounting

  datatype Event =
    | Check(id: nat, call: Attempt)  // the budget check, which may refuse
    | Record(id: nat, usage: Usage)  // an admitted call ends and is recorded
    | Drop(id: nat)                  // an admitted call ends without a record

  /** An admitted call under way, and when it was checked. */
  datatype Flight = Flight(call: Attempt, since: nat)

  datatype Books = Books(rows: seq<Row>, flying: map<nat, Flight>)

  predicate Enabled(b: Books, e: Event) {
    e.Check? <==> e.id !in b.flying
  }

  function Apply(b: Books, e: Event, now: nat): Books {
    if !Enabled(b, e) then b
    else match e
         case Check(id, call) => if Admitted(b.rows, call) then b.(flying := b.flying[id := Flight(call, now)]) else b
         case Record(id, usage) =>
           var call := b.flying[id].call;
           Books(b.rows + [Recorded(call.owner, call.day, call.model, usage)], b.flying - {id})
         case Drop(id) => b.(flying := b.flying - {id})
  }

  ghost function Kept(trace: seq<Event>): Books {
    if trace == [] then Books([], map[])
    else Apply(Kept(trace[..|trace| - 1]), trace[|trace| - 1], |trace| - 1)
  }

  /** Any number of calls, interleaved in any way. */
  ghost predicate Feasible(trace: seq<Event>) {
    forall i :: 0 <= i < |trace| ==> Enabled(Kept(trace[..i]), trace[i])
  }

  ghost function UsedBy(trace: seq<Event>, user: string, day: int): nat {
    Used(Kept(trace).rows, user, day)
  }

  ghost predicate OwnChecksOnly(trace: seq<Event>, user: string, day: int, budget: int) {
    forall i :: 0 <= i < |trace| && trace[i].Check? && trace[i].call.owner == user && trace[i].call.day == day ==>
      trace[i].call.caller == user && trace[i].call.budget == budget
  }

  /** The call checked at `c` and recorded at `r` accounts for everything above the
      budget: by what it used beyond its estimate, and by what was recorded while it
      was under way. */
  ghost predicate Explains(trace: seq<Event>, user: string, day: int, budget: int, c: nat, r: nat)
    requires c < r < |trace|
  {
    && trace[c].Check? && trace[r].Record? && trace[c].id == trace[r].id
    && trace[c].call.owner == user && trace[c].call.day == day
    && UsedBy(trace, user, day) + trace[c].call.estimated <=
         budget + Actual(trace[r].usage) + UsedBy(trace[..r], user, day) - UsedBy(trace[..c], user, day)
  }

  /** A call under way was admitted when it was checked. */
  lemma {:induction false} FlyingWasAdmitted(trace: seq<Event>, id: nat)
    requires id in Kept(trace).flying
    ensures var flight := Kept(trace).flying[id];
            && flight.since < |trace| && trace[flight.since] == Check(id, flight.call)
            && Admitted(Kept(trace[..flight.since]).rows, flight.call)
  {
    var init, last := trace[..|trace| - 1], trace[|trace| - 1];
    if id in Kept(init).flying {
      FlyingWasAdmitted(init, id);
      var since := Kept(init).flying[id].since;
      assert init[..since] == trace[..since] && init[since] == trace[since];
    }
  }

  lemma FeasibleInit(trace: seq<Event>, user: string, day: int, budget: int)
    requires trace != [] && Feasible(trace) && OwnChecksOnly(trace, user, day, budget)
    ensures var init := trace[..|trace| - 1];
            Feasible(init) && OwnChecksOnly(init, user, day, budget) && Enabled(Kept(init), trace[|trace| - 1])
  {
    var init := trace[..|trace| - 1];
    forall i | 0 <= i < |init| ensures Enabled(Kept(init[..i]), init[i]) {
      assert init[..i] == trace[..i] && init[i] == trace[i];
    }
  }

  lemma ExplainsLater(trace: seq<Event>, user: string, day: int, budget: int, c: nat, r: nat)
    requires c < r < |trace| - 1 && Explains(trace[..|trace| - 1], user, day, budget, c, r)
    requires UsedBy(trace, user, day) == UsedBy(trace[..|trace| - 1], user, day)
    ensures Explains(trace, user, day, budget, c, r)
  {
    var init := trace[..|trace| - 1];
    assert init[..r] == trace[..r] && init[..c] == trace[..c] && init[c] == trace[c] && init[r] == trace[r];
  }

  /** A call that is recorded now explains the whole excess itself. */
  lemma ExplainsNow(trace: seq<Event>, user: string, day: int, budget: int) returns (c: nat)
    requires trace != [] && OwnChecksOnly(trace, user, day, budget) && budget != UNLIMITED
    requires var b, last := Kept(trace[..|trace| - 1]), trace[|trace| - 1];
             Enabled(b, last) && last.Record? && b.flying[last.id].call.owner == user && b.flying[last.id].call.day == day
    ensures c < |trace| - 1 && Explains(trace, user, day, budget, c, |trace| - 1)
  {
    var n := |trace| - 1;
    var init, last := trace[..n], trace[n];
    FlyingWasAdmitted(init, last.id);
    c := Kept(init).flying[last.id].since;
    assert init[..c] == trace[..c] && init[c] == trace[c];
    RowsGrow(trace, user, day);
  }

  /** Over any interleaving the tokens of a day stay within the budget, plus what some
      recorded call used beyond its estimate, plus what was recorded while that call
      was under way. */
  lemma {:induction false} OverlapBound(trace: seq<Event>, user: string, day: int, budget: int)
    requires Feasible(trace) && OwnChecksOnly(trace, user, day, budget) && budget != UNLIMITED
    ensures UsedBy(trace, user, day) == 0 || exists c, r :: 0 <= c < r < |trace| && Explains(trace, user, day, budget, c, r)
  {
    if trace != [] {
      var init, last := trace[..|trace| - 1], trace[|trace| - 1];
      FeasibleInit(trace, user, day, budget);
      OverlapBound(init, user, day, budget);
      RowsGrow(trace, user, day);
      if last.Record? && Kept(init).flying[last.id].call.owner == user && Kept(init).flying[last.id].call.day == day {
        var c := ExplainsNow(trace, user, day, budget);
      } else if c, r :| 0 <= c < r < |init| && Explains(init, user, day, budget, c, r) {
        ExplainsLater(trace, user, day, budget, c, r);
      }
    }
  }

  /** Only a record of the user's own calls of that day adds to what the user has used. */
  lemma RowsGrow(trace: seq<Event>, user: string, day: int)
    requires trace != [] && Enabled(Kept(trace[..|trace| - 1]), trace[|trace| - 1])
    ensures var b, last := Kept(trace[..|trace| - 1]), trace[|trace| - 1];
            UsedBy(trace, user, day) == UsedBy(trace[..|trace| - 1], user, day) +
              if last.Record? && b.flying[last.id].call.owner == user && b.flying[last.id].call.day == day
              then Actual(last.usage) else 0
  {
    var rows := Kept(trace).rows;
    if trace[|trace| - 1].Record? { assert rows[..|rows| - 1] == Kept(trace[..|trace| - 1]).rows; }
  }

  /** Two calls that are both checked before either is recorded. */
  ghost function TwoAtOnce(user: string, day: int, budget: nat): seq<Event> {
    var call := Attempt(user, user, day, budget, 0, "gpt-4o", None);
    var usage := Usage(budget + 1, 0);
    [Check(0, call), Check(1, call), Record(0, usage), Record(1, usage)]
  }

  lemma KeptStep(trace: seq<Event>, i: nat)
    requires i < |trace|
    ensures Kept(trace[..i + 1]) == Apply(Kept(trace[..i]), trace[i], i)
  {
    assert trace[..i + 1][..i] == trace[..i];
  }

  lemma BooksOfTwo(user: string, day: int, budget: nat)
    ensures var trace := TwoAtOnce(user, day, budget);
            var row := Recorded(user, day, "gpt-4o", Usage(budget + 1, 0));
            && Kept(trace[..0]) == Books([], map[])
            && Kept(trace[..1]) == Books([], map[0 := Flight(trace[0].call, 0)])
            && Kept(trace[..2]) == Books([], map[0 := Flight(trace[0].call, 0), 1 := Flight(trace[0].call, 1)])
            && Kept(trace[..3]) == Books([row], map[1 := Flight(trace[0].call, 1)])
            && Kept(trace[..4]) == Books([row, row], map[])
  {
    var trace := TwoAtOnce(user, day, budget);
    KeptStep(trace, 0);
    KeptStep(trace, 1);
    KeptStep(trace, 2);
    KeptStep(trace, 3);
  }

  /** The part about calls under way is needed: two overlapping calls of one user
      exceed the bound that holds for calls made one after the other. */
  lemma OverlapExceedsSequentialBound(user: string, day: int, budget: nat)
    ensures var trace := TwoAtOnce(user, day, budget);
            && Feasible(trace) && OwnChecksOnly(trace, user, day, budget)
            && forall r :: 2 <= r < 4 ==>
                 UsedBy(trace, user, day) + trace[r - 2].call.estimated > budget + Actual(trace[r].usage)
  {
    var trace := TwoAtOnce(user, day, budget);
    var row := Recorded(user, day, "gpt-4o", Usage(budget + 1, 0));
    BooksOfTwo(user, day, budget);
    assert trace[..4] == trace;
    UsedTwice(row);
  }

  // ---- exactly when the sequential bound holds ---------------------------------------

  /** What a caller decides: when calls begin and end.  What they use comes later. */
  datatype Move = Begin(id: nat, call: Attempt) | End(id: nat)

  /** What each call uses; `None` for a call that ends without a record. */
  type Usages = nat -> Option<Usage>

  /** Ends of calls that were refused do nothing. */
  ghost function Play(plan: seq<Move>, usages: Usages): (trace: seq<Event>)
    ensures |trace| == |plan|
  {
    seq(|plan|, i requires 0 <= i < |plan| =>
      match plan[i]
      case Begin(id, call) => Check(id, call)
      case End(id) => if usages(id).Some? then Record(id, usages(id).value) else Drop(id))
  }

  ghost predicate OncePerId(plan: seq<Move>) {
    forall i, j :: 0 <= i < j < |plan| && plan[i].id == plan[j].id ==> plan[i].Begin? != plan[j].Begin?
  }

  lemma OtherMove(plan: seq<Move>, i: nat, j: nat)
    requires OncePerId(plan) && i < |plan| && j < |plan| && i != j
    ensures !(plan[i].id == plan[j].id && plan[i].Begin? == plan[j].Begin?)
  {
  }

  ghost predicate OwnCall(m: Move, user: string, day: int) {
    m.Begin? && m.call.owner == user && m.call.day == day
  }

  ghost predicate OwnBeginsOnly(plan: seq<Move>, user: string, day: int, budget: int) {
    forall i :: 0 <= i < |plan| && OwnCall(plan[i], user, day) ==>
      plan[i].call.caller == user && plan[i].call.budget == budget
  }

  /** The call checked at `c` was recorded at `r`, and it alone accounts for
      everything above the budget. */
  ghost predicate PaysForAll(trace: seq<Event>, user: string, day: int, budget: int, c: nat, r: nat) {
    && c < r < |trace| && RecordedAt(trace, user, day, c, r)
    && UsedBy(trace, user, day) + trace[c].call.estimated <= budget + Actual(trace[r].usage)
  }

  /** An own call that was admitted at `c` is recorded at `r`. */
  ghost predicate RecordedAt(trace: seq<Event>, user: string, day: int, c: nat, r: nat) {
    && c < r < |trace| && trace[c].Check? && trace[r].Record?
    && trace[r].id in Kept(trace[..r]).flying && Kept(trace[..r]).flying[trace[r].id] == Flight(trace[c].call, c)
    && trace[c].call.owner == user && trace[c].call.day == day
  }

  /** The bound as it is for calls made one after the other. */
  ghost predicate Sequential(trace: seq<Event>, user: string, day: int, budget: int) {
    UsedBy(trace, user, day) == 0 || exists c: nat, r: nat :: PaysForAll(trace, user, day, budget, c, r)
  }

  /** The call that begins at `i` and ends at `k`. */
  ghost predicate Lasts(plan: seq<Move>, i: nat, k: nat) {
    i < k < |plan| && plan[i].Begin? && plan[k] == End(plan[i].id)
  }

  /** An own call that the budget could admit, from its begin to its end. */
  ghost predicate Affordable(plan: seq<Move>, user: string, day: int, budget: int, i: nat, k: nat) {
    Lasts(plan, i, k) && OwnCall(plan[i], user, day) && plan[i].call.estimated <= budget
  }

  /** Two such calls are under way at the same time. */
  ghost predicate Overlap(plan: seq<Move>, user: string, day: int, budget: int) {
    exists i: nat, j: nat, k: nat, l: nat ::
      Affordable(plan, user, day, budget, i, k) && Affordable(plan, user, day, budget, j, l) && i < j < k
  }

  /** The sequential bound holds whatever the calls use, if and only if no two of the
      user's affordable calls of the day overlap. */
  lemma SequentialIffNoOverlap(plan: seq<Move>, user: string, day: int, budget: nat)
    requires OncePerId(plan) && OwnBeginsOnly(plan, user, day, budget)
    ensures (forall usages :: Sequential(Play(plan, usages), user, day, budget)) <==> !Overlap(plan, user, day, budget)
  {
    if Overlap(plan, user, day, budget) {
      var i: nat, j: nat, k: nat, l: nat :|
        Affordable(plan, user, day, budget, i, k) && Affordable(plan, user, day, budget, j, l) && i < j < k;
      OverlapBreaks(plan, user, day, budget, i, j, k, l);
    } else {
      forall usages ensures Sequential(Play(plan, usages), user, day, budget) {
        LastRecordPays(plan, usages, user, day, budget, |plan|);
        assert Play(plan, usages)[..|plan|] == Play(plan, usages);
      }
    }
  }

  // -- no overlap: the last record pays --

  /** The effective record at `r`, and where its call was checked. */
  lemma RecordFrom(plan: seq<Move>, usages: Usages, r: nat) returns (c: nat)
    requires var trace := Play(plan, usages);
             r < |plan| && trace[r].Record? && trace[r].id in Kept(trace[..r]).flying
    ensures var trace := Play(plan, usages);
            && Lasts(plan, c, r) && trace[c].Check? && trace[c].call == plan[c].call
            && Kept(trace[..r]).flying[trace[r].id] == Flight(trace[c].call, c)
            && Admitted(Kept(trace[..c]).rows, plan[c].call)
  {
    var trace := Play(plan, usages);
    FlyingWasAdmitted(trace[..r], trace[r].id);
    c := Kept(trace[..r]).flying[trace[r].id].since;
    assert trace[..r][..c] == trace[..c] && trace[..r][c] == trace[c];
  }

  /** What the event at `r` adds to what the user has used. */
  lemma UsedStep(trace: seq<Event>, user: string, day: int, r: nat)
    requires r < |trace|
    ensures var b := Kept(trace[..r]);
            UsedBy(trace[..r + 1], user, day) == UsedBy(trace[..r], user, day) +
              if trace[r].Record? && trace[r].id in b.flying &&
                 b.flying[trace[r].id].call.owner == user && b.flying[trace[r].id].call.day == day
              then Actual(trace[r].usage) else 0
  {
    KeptStep(trace, r);
    var rows := Kept(trace[..r + 1]).rows;
    if rows != Kept(trace[..r]).rows { assert rows[..|rows| - 1] == Kept(trace[..r]).rows; }
  }

  ghost predicate OwnRecord(trace: seq<Event>, user: string, day: int, r: nat) {
    r < |trace| && trace[r].Record? && trace[r].id in Kept(trace[..r]).flying &&
    Kept(trace[..r]).flying[trace[r].id].call.owner == user && Kept(trace[..r]).flying[trace[r].id].call.day == day
  }

  lemma NothingAdded(trace: seq<Event>, user: string, day: int, r: nat)
    requires r < |trace| && !OwnRecord(trace, user, day, r)
    ensures UsedBy(trace[..r + 1], user, day) == UsedBy(trace[..r], user, day)
  {
    UsedStep(trace, user, day, r);
  }

  lemma {:induction false} NoRecordBetween(trace: seq<Event>, user: string, day: int, low: nat, high: nat)
    requires low <= high <= |trace|
    requires forall r :: low <= r < high ==> !OwnRecord(trace, user, day, r)
    ensures UsedBy(trace[..high], user, day) == UsedBy(trace[..low], user, day)
    decreases high
  {
    if low < high {
      NoRecordBetween(trace, user, day, low, high - 1);
      UsedStep(trace, user, day, high - 1);
      assert !OwnRecord(trace, user, day, high - 1);
    }
  }

  lemma OwnRecordIsAffordable(plan: seq<Move>, usages: Usages, user: string, day: int, budget: nat, r: nat) returns (c: nat)
    requires OwnBeginsOnly(plan, user, day, budget) && OwnRecord(Play(plan, usages), user, day, r)
    ensures Affordable(plan, user, day, budget, c, r) && RecordedAt(Play(plan, usages), user, day, c, r)
    ensures UsedBy(Play(plan, usages)[..c], user, day) + plan[c].call.estimated <= budget
  {
    c := RecordFrom(plan, usages, r);
    assert OwnCall(plan[c], user, day);
  }

  /** While an affordable call is under way no other one is recorded. */
  lemma AloneUnderWay(plan: seq<Move>, usages: Usages, user: string, day: int, budget: nat, c: nat, r: nat, m: nat)
    requires OncePerId(plan) && OwnBeginsOnly(plan, user, day, budget) && !Overlap(plan, user, day, budget)
    requires Affordable(plan, user, day, budget, c, r) && c <= m < r
    ensures !OwnRecord(Play(plan, usages), user, day, m)
  {
    if OwnRecord(Play(plan, usages), user, day, m) {
      var b := OwnRecordIsAffordable(plan, usages, user, day, budget, m);
      TwoUnderWay(plan, user, day, budget, c, r, b, m);
    }
  }

  lemma TwoUnderWay(plan: seq<Move>, user: string, day: int, budget: nat, c: nat, r: nat, b: nat, m: nat)
    requires OncePerId(plan) && Affordable(plan, user, day, budget, c, r) && Affordable(plan, user, day, budget, b, m)
    requires c <= m < r
    ensures Overlap(plan, user, day, budget)
  {
    OtherMove(plan, m, r);
  }

  /** Right after an own record, the recorded call pays for all. */
  lemma OwnRecordPays(plan: seq<Move>, usages: Usages, user: string, day: int, budget: nat, r: nat)
    requires OncePerId(plan) && OwnBeginsOnly(plan, user, day, budget) && !Overlap(plan, user, day, budget)
    requires OwnRecord(Play(plan, usages), user, day, r)
    ensures Sequential(Play(plan, usages)[..r + 1], user, day, budget)
  {
    var trace := Play(plan, usages);
    var c := OwnRecordIsAffordable(plan, usages, user, day, budget, r);
    forall m | c <= m < r ensures !OwnRecord(trace, user, day, m) {
      AloneUnderWay(plan, usages, user, day, budget, c, r, m);
    }
    NoRecordBetween(trace, user, day, c, r);
    UsedStep(trace, user, day, r);
    PaysInPrefix(trace, user, day, budget, c, r, r + 1);
  }

  lemma PaysInPrefix(trace: seq<Event>, user: string, day: int, budget: int, c: nat, r: nat, n: nat)
    requires r < n <= |trace| && RecordedAt(trace, user, day, c, r)
    requires UsedBy(trace[..n], user, day) + trace[c].call.estimated <= budget + Actual(trace[r].usage)
    ensures Sequential(trace[..n], user, day, budget)
  {
    assert trace[..n][..r] == trace[..r] && trace[..n][c] == trace[c] && trace[..n][r] == trace[r];
    assert PaysForAll(trace[..n], user, day, budget, c, r);
  }

  lemma StillPaid(trace: seq<Event>, user: string, day: int, budget: int, n: nat)
    requires n < |trace| && Sequential(trace[..n], user, day, budget)
    requires UsedBy(trace[..n + 1], user, day) == UsedBy(trace[..n], user, day)
    ensures Sequential(trace[..n + 1], user, day, budget)
  {
    if c: nat, r: nat :| PaysForAll(trace[..n], user, day, budget, c, r) {
      assert trace[..n][..r] == trace[..r] && trace[..n][c] == trace[c] && trace[..n][r] == trace[r];
      PaysInPrefix(trace, user, day, budget, c, r, n + 1);
    }
  }

  lemma {:induction false} LastRecordPays(plan: seq<Move>, usages: Usages, user: string, day: int, budget: nat, n: nat)
    requires OncePerId(plan) && OwnBeginsOnly(plan, user, day, budget) && !Overlap(plan, user, day, budget)
    requires n <= |plan|
    ensures Sequential(Play(plan, usages)[..n], user, day, budget)
  {
    if n > 0 {
      LastRecordPays(plan, usages, user, day, budget, n - 1);
      if OwnRecord(Play(plan, usages), user, day, n - 1) {
        OwnRecordPays(plan, usages, user, day, budget, n - 1);
      } else {
        NothingAdded(Play(plan, usages), user, day, n - 1);
        StillPaid(Play(plan, usages), user, day, budget, n - 1);
      }
    }
  }

  // -- overlap: two large calls break the bound --

  /** The calls `a` and `b` use one token more than the budget, all others none. */
  ghost function TwoLarge(a: nat, b: nat, budget: nat): Usages {
    (id: nat) => Some(Usage(if id == a || id == b then budget + 1 else 0, 0))
  }

  /** Until one of the two large calls ends, nothing is used. */
  lemma {:induction false} NothingUsedYet(plan: seq<Move>, user: string, day: int, budget: nat, a: nat, b: nat, n: nat)
    requires n <= |plan| && forall m :: 0 <= m < n ==> plan[m] != End(a) && plan[m] != End(b)
    ensures UsedBy(Play(plan, TwoLarge(a, b, budget))[..n], user, day) == 0
  {
    if n > 0 {
      NothingUsedYet(plan, user, day, budget, a, b, n - 1);
      UsedStep(Play(plan, TwoLarge(a, b, budget)), user, day, n - 1);
    }
  }

  /** An affordable call that begins while nothing is used is admitted, and under way
      until it ends. */
  lemma {:induction false} StaysFlying(plan: seq<Move>, usages: Usages, i: nat, n: nat)
    requires OncePerId(plan) && i < n <= |plan| && plan[i].Begin?
    requires Admitted(Kept(Play(plan, usages)[..i]).rows, plan[i].call)
    requires forall m :: i < m < n ==> plan[m] != End(plan[i].id)
    ensures var b := Kept(Play(plan, usages)[..n]);
            plan[i].id in b.flying && b.flying[plan[i].id] == Flight(plan[i].call, i)
    decreases n - i
  {
    if n == i + 1 {
      StartsFlying(plan, usages, i);
    } else {
      StaysFlying(plan, usages, i, n - 1);
      OtherMove(plan, i, n - 1);
      OtherMoveKeeps(plan, usages, n - 1, plan[i].id);
    }
  }

  lemma StartsFlying(plan: seq<Move>, usages: Usages, i: nat)
    requires OncePerId(plan) && i < |plan| && plan[i].Begin?
    requires Admitted(Kept(Play(plan, usages)[..i]).rows, plan[i].call)
    ensures var b := Kept(Play(plan, usages)[..i + 1]);
            plan[i].id in b.flying && b.flying[plan[i].id] == Flight(plan[i].call, i)
  {
    NotFlyingBefore(plan, usages, i);
    KeptStep(Play(plan, usages), i);
    CheckStarts(Kept(Play(plan, usages)[..i]), plan[i].id, plan[i].call, i);
  }

  lemma OtherMoveKeeps(plan: seq<Move>, usages: Usages, n: nat, id: nat)
    requires n < |plan| && plan[n].id != id && id in Kept(Play(plan, usages)[..n]).flying
    ensures id in Kept(Play(plan, usages)[..n + 1]).flying
    ensures Kept(Play(plan, usages)[..n + 1]).flying[id] == Kept(Play(plan, usages)[..n]).flying[id]
  {
    var trace := Play(plan, usages);
    KeptStep(trace, n);
    OtherEventKeeps(Kept(trace[..n]), trace[n], n, id);
  }

  lemma CheckStarts(b: Books, id: nat, call: Attempt, now: nat)
    requires id !in b.flying && Admitted(b.rows, call)
    ensures id in Apply(b, Check(id, call), now).flying
    ensures Apply(b, Check(id, call), now).flying[id] == Flight(call, now)
  {
  }

  lemma OtherEventKeeps(b: Books, e: Event, now: nat, id: nat)
    requires id in b.flying && e.id != id
    ensures id in Apply(b, e, now).flying && Apply(b, e, now).flying[id] == b.flying[id]
  {
  }

  lemma NotFlyingBefore(plan: seq<Move>, usages: Usages, i: nat)
    requires OncePerId(plan) && i < |plan| && plan[i].Begin?
    ensures plan[i].id !in Kept(Play(plan, usages)[..i]).flying
  {
    var before := Play(plan, usages)[..i];
    if plan[i].id in Kept(before).flying {
      FlyingWasAdmitted(before, plan[i].id);
      OtherMove(plan, Kept(before).flying[plan[i].id].since, i);
    }
  }

  lemma {:induction false} UsedGrows(trace: seq<Event>, user: string, day: int, n: nat, m: nat)
    requires n <= m <= |trace|
    ensures UsedBy(trace[..n], user, day) <= UsedBy(trace[..m], user, day)
    decreases m - n
  {
    if n < m {
      UsedGrows(trace, user, day, n, m - 1);
      UsedStep(trace, user, day, m - 1);
    }
  }

  /** When an admitted own call ends, its tokens are added. */
  lemma EndAdds(plan: seq<Move>, usages: Usages, user: string, day: int, i: nat, k: nat)
    requires OncePerId(plan) && Lasts(plan, i, k) && OwnCall(plan[i], user, day) && usages(plan[i].id).Some?
    requires Admitted(Kept(Play(plan, usages)[..i]).rows, plan[i].call)
    ensures UsedBy(Play(plan, usages)[..k + 1], user, day) ==
              UsedBy(Play(plan, usages)[..k], user, day) + Actual(usages(plan[i].id).value)
  {
    EndsOnce(plan, i, k);
    StaysFlying(plan, usages, i, k);
    UsedStep(Play(plan, usages), user, day, k);
  }

  lemma EndsOnce(plan: seq<Move>, i: nat, k: nat)
    requires OncePerId(plan) && Lasts(plan, i, k)
    ensures forall m :: 0 <= m < |plan| && m != k ==> plan[m] != End(plan[i].id)
  {
    forall m | 0 <= m < |plan| && m != k ensures plan[m] != End(plan[i].id) {
      OtherMove(plan, m, k);
    }
  }

  /** An affordable call that begins before either of the two ends is admitted. */
  lemma AdmittedEarly(plan: seq<Move>, user: string, day: int, budget: nat, a: nat, b: nat, i: nat, k: nat)
    requires OwnBeginsOnly(plan, user, day, budget) && Affordable(plan, user, day, budget, i, k)
    requires forall m :: 0 <= m < i ==> plan[m] != End(a) && plan[m] != End(b)
    ensures Admitted(Kept(Play(plan, TwoLarge(a, b, budget))[..i]).rows, plan[i].call)
  {
    NothingUsedYet(plan, user, day, budget, a, b, i);
  }

  /** Two overlapping calls both count in full. */
  lemma BothCount(plan: seq<Move>, user: string, day: int, budget: nat, i: nat, j: nat, k: nat, l: nat)
    requires OncePerId(plan) && OwnBeginsOnly(plan, user, day, budget)
    requires Affordable(plan, user, day, budget, i, k) && Affordable(plan, user, day, budget, j, l) && i < j < k
    ensures UsedBy(Play(plan, TwoLarge(plan[i].id, plan[j].id, budget)), user, day) >= 2 * budget + 2
  {
    var a, b := plan[i].id, plan[j].id;
    var usages := TwoLarge(a, b, budget);
    var trace := Play(plan, usages);
    EndsOnce(plan, i, k);
    EndsOnce(plan, j, l);
    AdmittedEarly(plan, user, day, budget, a, b, i, k);
    AdmittedEarly(plan, user, day, budget, a, b, j, l);
    EndAdds(plan, usages, user, day, i, k);
    EndAdds(plan, usages, user, day, j, l);
    OtherMove(plan, i, j);
    if k < l { TwoEnds(trace, user, day, budget + 1, k, l); } else { TwoEnds(trace, user, day, budget + 1, l, k); }
  }

  lemma TwoEnds(trace: seq<Event>, user: string, day: int, used: nat, p: nat, q: nat)
    requires p < q < |trace|
    requires UsedBy(trace[..p + 1], user, day) == UsedBy(trace[..p], user, day) + used
    requires UsedBy(trace[..q + 1], user, day) == UsedBy(trace[..q], user, day) + used
    ensures UsedBy(trace, user, day) >= 2 * used
  {
    UsedGrows(trace, user, day, p + 1, q);
    UsedGrows(trace, user, day, q + 1, |trace|);
    assert trace[..|trace|] == trace;
  }

  lemma OverlapBreaks(plan: seq<Move>, user: string, day: int, budget: nat, i: nat, j: nat, k: nat, l: nat)
    requires OncePerId(plan) && OwnBeginsOnly(plan, user, day, budget)
    requires Affordable(plan, user, day, budget, i, k) && Affordable(plan, user, day, budget, j, l) && i < j < k
    ensures !Sequential(Play(plan, TwoLarge(plan[i].id, plan[j].id, budget)), user, day, budget)
  {
    var trace := Play(plan, TwoLarge(plan[i].id, plan[j].id, budget));
    BothCount(plan, user, day, budget, i, j, k, l);
    forall c: nat, r: nat ensures !PaysForAll(trace, user, day, budget, c, r) {
      NoneUsesMore(plan, plan[i].id, plan[j].id, budget, r);
    }
  }

  lemma NoneUsesMore(plan: seq<Move>, a: nat, b: nat, budget: nat, r: nat)
    ensures var trace := Play(plan, TwoLarge(a, b, budget));
            r < |trace| && trace[r].Record? ==> Actual(trace[r].usage) <= budget + 1
  {
  }
}
