/** The service's fixed-window limiter: one expiring counter per key. */
module FixedWindow {
  const KEY_TTL_SECONDS: real := 60.0

  /** A counter key of the store; `expires` is when the store drops it. */
  datatype Counter = Counter(count: int, expires: real)

  /** The counter of `key` at time `now`; 0 stands for an absent key. */
  function CountAt(keys: map<string, Counter>, key: string, now: real): int {
    if key in keys && now < keys[key].expires then keys[key].count else 0
  }

  function Max(a: int, b: int): int { if a < b then b else a }

  /** One admitted request, with the start of the window it was counted in. */
  datatype Admission = Admission(now: real, start: real)

  ghost predicate InWindow(a: Admission) {
    a.start <= a.now < a.start + KEY_TTL_SECONDS
  }

  /** Windows of one key do not overlap, and later requests are in later windows. */
  ghost predicate Windowed(log: seq<Admission>) {
    && (forall i :: 0 <= i < |log| ==> InWindow(log[i]))
    && (forall i, j :: 0 <= i < j < |log| ==>
          log[i].start == log[j].start || log[i].start + KEY_TTL_SECONDS <= log[j].start)
  }

  ghost function CountStart(log: seq<Admission>, start: real): nat {
    if log == [] then 0
    else CountStart(log[..|log| - 1], start) + if log[|log| - 1].start == start then 1 else 0
  }

  ghost function CountBetween(log: seq<Admission>, from: real): nat {
    if log == [] then 0
    else CountBetween(log[..|log| - 1], from) +
         if from <= log[|log| - 1].now <= from + 60.0 then 1 else 0
  }

  /** No window holds more admitted requests than the limit. */
  ghost predicate WithinLimit(limit: int, log: seq<Admission>) {
    forall start :: CountStart(log, start) <= Max(limit, 0)
  }

  /** The window that began at `start` is the last one. */
  ghost predicate LastWindow(log: seq<Admission>, start: real) {
    forall i :: 0 <= i < |log| ==> log[i].start == start || log[i].start + KEY_TTL_SECONDS <= start
  }

  /** A counter and the requests admitted under its key, none of them after `clock`. */
  ghost predicate InStep(limit: int, counter: Counter, log: seq<Admission>, clock: real) {
    var start := counter.expires - KEY_TTL_SECONDS;
    && Windowed(log) && counter.count >= 1 && start <= clock
    && LastWindow(log, start) && WithinLimit(limit, log)
    && CountStart(log, start) == if counter.count <= limit then counter.count else Max(limit, 0)
  }

  /** One increment at time `now`. */
  function Incremented(keys: map<string, Counter>, key: string, now: real): Counter {
    var count := CountAt(keys, key, now) + 1;
    Counter(count, if count == 1 then now + KEY_TTL_SECONDS else keys[key].expires)
  }

  /** The log after the increment that made `counter`. */
  ghost function Longer(log: seq<Admission>, limit: int, counter: Counter, now: real): seq<Admission> {
    if counter.count > limit then log else log + [Admission(now, counter.expires - KEY_TTL_SECONDS)]
  }

  ghost predicate KeyInStep(limit: int, keys: map<string, Counter>, key: string, log: seq<Admission>, clock: real) {
    if key in keys then InStep(limit, keys[key], log, clock) else log == []
  }

  lemma OneMore(log: seq<Admission>, a: Admission, start: real)
    ensures CountStart(log + [a], start) == CountStart(log, start) + if a.start == start then 1 else 0
  {
    assert (log + [a])[..|log|] == log;
  }

  lemma StillWindowed(log: seq<Admission>, a: Admission)
    requires Windowed(log) && InWindow(a) && LastWindow(log, a.start)
    ensures Windowed(log + [a]) && LastWindow(log + [a], a.start)
  {
  }

  lemma OneMoreInLimit(limit: int, log: seq<Admission>, a: Admission)
    requires WithinLimit(limit, log) && CountStart(log, a.start) + 1 <= limit
    ensures WithinLimit(limit, log + [a])
  {
    forall s ensures CountStart(log + [a], s) <= Max(limit, 0) { OneMore(log, a, s); }
  }

  /** Counting one more admitted request in the window that began at `start`. */
  lemma Counted(limit: int, log: seq<Admission>, count: nat, expires: real, a: Admission)
    requires a.start == expires - KEY_TTL_SECONDS && InWindow(a)
    requires Windowed(log) && LastWindow(log, a.start) && WithinLimit(limit, log)
    requires count + 1 <= limit && CountStart(log, a.start) == count
    ensures InStep(limit, Counter(count + 1, expires), log + [a], a.now)
  {
    StillWindowed(log, a);
    OneMoreInLimit(limit, log, a);
    OneMore(log, a, a.start);
  }

  /** A window that opens at `now` is later than every earlier one. */
  lemma FreshWindow(limit: int, keys: map<string, Counter>, key: string, log: seq<Admission>, clock: real, now: real)
    requires KeyInStep(limit, keys, key, log, clock) && clock <= now
    requires key !in keys || keys[key].expires <= now
    ensures Windowed(log) && LastWindow(log, now) && WithinLimit(limit, log) && CountStart(log, now) == 0
  {
    if key in keys { WindowsClosed(log, keys[key].expires - KEY_TTL_SECONDS, now); }
  }

  lemma WindowsClosed(log: seq<Admission>, start: real, now: real)
    requires LastWindow(log, start) && start + KEY_TTL_SECONDS <= now
    ensures LastWindow(log, now) && CountStart(log, now) == 0
  {
    NotCounted(log, now);
  }

  lemma NoneAdmitted(limit: int, counter: Counter, log: seq<Admission>, now: real)
    requires counter.expires - KEY_TTL_SECONDS == now && counter.count == 1 && limit <= 0
    requires Windowed(log) && LastWindow(log, now) && WithinLimit(limit, log) && CountStart(log, now) == 0
    ensures InStep(limit, counter, log, now)
  {
  }

  lemma OneAdmitted(limit: int, log: seq<Admission>, counter: Counter, now: real)
    requires counter.expires - KEY_TTL_SECONDS == now && counter == Counter(1, counter.expires) && 1 <= limit
    requires Windowed(log) && LastWindow(log, now) && WithinLimit(limit, log) && CountStart(log, now) == 0
    ensures InStep(limit, counter, log + [Admission(now, now)], now)
  {
    Counted(limit, log, 0, counter.expires, Admission(now, now));
  }

  /** The first increment of a window, which may be over a limit of zero. */
  lemma FirstIncrement(limit: int, log: seq<Admission>, counter: Counter, now: real)
    requires counter.expires - KEY_TTL_SECONDS == now && counter.count == 1
    requires Windowed(log) && LastWindow(log, now) && WithinLimit(limit, log) && CountStart(log, now) == 0
    ensures InStep(limit, counter, Longer(log, limit, counter, now), now)
  {
    if 1 <= limit {
      assert Longer(log, limit, counter, now) == log + [Admission(now, now)] && counter == Counter(1, counter.expires);
      OneAdmitted(limit, log, counter, now);
    } else {
      NoneAdmitted(limit, counter, log, now);
    }
  }

  /** A later increment in a window leaves the log as it is, or adds one request. */
  lemma LaterIncrement(limit: int, counter: Counter, log: seq<Admission>, clock: real, now: real, next: Counter)
    requires InStep(limit, counter, log, clock) && clock <= now < counter.expires
    requires next == Counter(counter.count + 1, counter.expires)
    ensures InStep(limit, next, Longer(log, limit, next, now), now)
  {
    if counter.count + 1 <= limit {
      Counted(limit, log, counter.count, counter.expires, Admission(now, counter.expires - KEY_TTL_SECONDS));
    }
  }

  /** Which of the two an increment is. */
  lemma IncrementedIs(limit: int, keys: map<string, Counter>, key: string, log: seq<Admission>, clock: real, now: real)
    requires KeyInStep(limit, keys, key, log, clock)
    ensures Incremented(keys, key, now) ==
              if key !in keys || keys[key].expires <= now then Counter(1, now + KEY_TTL_SECONDS)
              else Counter(keys[key].count + 1, keys[key].expires)
  {
  }

  lemma FreshIncrement(limit: int, keys: map<string, Counter>, key: string, log: seq<Admission>, clock: real, now: real,
                       counter: Counter)
    requires KeyInStep(limit, keys, key, log, clock) && clock <= now
    requires key !in keys || keys[key].expires <= now
    requires counter == Counter(1, now + KEY_TTL_SECONDS)
    ensures InStep(limit, counter, Longer(log, limit, counter, now), now)
  {
    FreshWindow(limit, keys, key, log, clock, now);
    FirstIncrement(limit, log, counter, now);
  }

  lemma IncrementKeeps(limit: int, keys: map<string, Counter>, key: string, log: seq<Admission>, clock: real, now: real)
    requires KeyInStep(limit, keys, key, log, clock) && clock <= now
    ensures var counter := Incremented(keys, key, now);
            InStep(limit, counter, Longer(log, limit, counter, now), now)
  {
    IncrementedIs(limit, keys, key, log, clock, now);
    if key !in keys || keys[key].expires <= now {
      FreshIncrement(limit, keys, key, log, clock, now, Incremented(keys, key, now));
    } else {
      LaterIncrement(limit, keys[key], log, clock, now, Incremented(keys, key, now));
    }
  }

  lemma {:induction false} NotCounted(log: seq<Admission>, start: real)
    requires forall i :: 0 <= i < |log| ==> log[i].start != start
    ensures CountStart(log, start) == 0
  {
    if log != [] { NotCounted(log[..|log| - 1], start); }
  }

  /** Some window of 60 seconds around `now` already holds `limit` admitted requests. */
  ghost predicate WindowFull(log: seq<Admission>, limit: int, now: real) {
    limit <= 0 || exists start :: start <= now < start + 60.0 && CountStart(log, start) >= limit
  }

  /** Only a full window refuses, and a full window always does. */
  lemma RefusedIff(limit: int, keys: map<string, Counter>, key: string, log: seq<Admission>, clock: real, now: real)
    requires KeyInStep(limit, keys, key, log, clock) && clock <= now
    ensures CountAt(keys, key, now) + 1 > limit <==> WindowFull(log, limit, now)
  {
    forall start | start <= now < start + 60.0 ensures CountStart(log, start) <= CountAt(keys, key, now) {
      if key in keys && now < keys[key].expires {
        CountInWindow(limit, keys[key], log, clock, start, now);
      } else {
        FreshWindow(limit, keys, key, log, clock, now);
        NoneSince(log, start, now);
      }
    }
    if key in keys && now < keys[key].expires && keys[key].count + 1 > limit {
      assert CountStart(log, keys[key].expires - KEY_TTL_SECONDS) >= limit;
    }
  }

  lemma CountInWindow(limit: int, counter: Counter, log: seq<Admission>, clock: real, start: real, now: real)
    requires InStep(limit, counter, log, clock) && clock <= now && start <= now < start + 60.0
    ensures CountStart(log, start) <= counter.count
  {
    var open := counter.expires - KEY_TTL_SECONDS;
    if start != open { NotCounted(log, start); }
  }

  lemma NoneSince(log: seq<Admission>, start: real, now: real)
    requires LastWindow(log, now) && CountStart(log, now) == 0 && start <= now < start + 60.0
    ensures CountStart(log, start) == 0
  {
    if start != now { NotCounted(log, start); }
  }

  function Log(admitted: map<string, seq<Admission>>, key: string): seq<Admission> {
    if key in admitted then admitted[key] else []
  }

  ghost predicate AllInStep(limit: int, keys: map<string, Counter>, admitted: map<string, seq<Admission>>, clock: real) {
    forall key :: KeyInStep(limit, keys, key, Log(admitted, key), clock)
  }

  lemma OneIncrement(limit: int, keys: map<string, Counter>, admitted: map<string, seq<Admission>>, clock: real,
                     key: string, now: real)
    requires AllInStep(limit, keys, admitted, clock) && clock <= now
    ensures var counter := Incremented(keys, key, now);
            AllInStep(limit, keys[key := counter],
                      admitted[key := Longer(Log(admitted, key), limit, counter, now)], now)
  {
    var counter := Incremented(keys, key, now);
    var keys' := keys[key := counter];
    var admitted' := admitted[key := Longer(Log(admitted, key), limit, counter, now)];
    forall other ensures KeyInStep(limit, keys', other, Log(admitted', other), now) {
      assert KeyInStep(limit, keys, other, Log(admitted, other), clock);
      if other == key { IncrementKeeps(limit, keys, key, Log(admitted, key), clock, now); }
    }
  }

  class Limiter {
    const limit: int
    var keys: map<string, Counter>
    ghost var clock: real
    ghost var admitted: map<string, seq<Admission>>  // admitted requests of each key

    ghost predicate Valid()
      reads this
    {
      AllInStep(limit, keys, admitted, clock)
    }

    constructor (limit: int, now: real)
      ensures Valid() && this.limit == limit && keys == map[] && admitted == map[] && clock == now
    {
      this.limit := limit;
      keys, admitted, clock := map[], map[], now;
    }

    /** Increment, and start the expiry of a counter that was absent, in one step. */
    method IsRateLimited(key: string, now: real) returns (limited: bool)
      requires Valid() && clock <= now
      modifies this
      ensures Valid() && clock == now
      ensures limited <==> WindowFull(Log(old(admitted), key), limit, now)
      ensures keys == old(keys)[key :=
                if key in old(keys) && now < old(keys)[key].expires
                then Counter(old(keys)[key].count + 1, old(keys)[key].expires) else Counter(1, now + 60.0)]
      ensures limited <==> keys[key].count > limit
      ensures admitted == old(admitted)[key := if limited then Log(old(admitted), key)
                else Log(old(admitted), key) + [Admission(now, keys[key].expires - 60.0)]]
    {
      var counter := Incremented(keys, key, now);
      limited := counter.count > limit;
      RefusedIff(limit, keys, key, Log(admitted, key), clock, now);
      OneIncrement(limit, keys, admitted, clock, key, now);
      admitted := admitted[key := Longer(Log(admitted, key), limit, counter, now)];
      keys, clock := keys[key := counter], now;
    }

    method GetRemainingRequests(key: string, now: real) returns (remaining: int)
      requires Valid()
      ensures remaining > 0 <==> CountAt(keys, key, now) + 1 <= limit
      ensures remaining == if CountAt(keys, key, now) == 0 then limit else Max(0, limit - CountAt(keys, key, now))
    {
      assert KeyInStep(limit, keys, key, Log(admitted, key), clock);
      if key in keys && now < keys[key].expires {
        remaining := Max(0, limit - keys[key].count);
      } else {
        remaining := limit;
      }
    }
  }

  // ---- the bound ------------------------------------------------------------------

  /** Two windows cover everything admitted within 60 seconds. */
  lemma {:induction false} TwoWindows(log: seq<Admission>, from: real, first: real, second: real)
    requires forall i :: 0 <= i < |log| && from <= log[i].now <= from + KEY_TTL_SECONDS ==>
               log[i].start == first || log[i].start == second
    ensures CountBetween(log, from) <= CountStart(log, first) + CountStart(log, second)
  {
    if log != [] { TwoWindows(log[..|log| - 1], from, first, second); }
  }

  lemma SpanOfTwoWindows(log: seq<Admission>, from: real) returns (first: real, second: real)
    requires Windowed(log)
    ensures forall i :: 0 <= i < |log| && from <= log[i].now <= from + KEY_TTL_SECONDS ==>
              log[i].start == first || log[i].start == second
  {
    first, second := from, from;
    if i :| 0 <= i < |log| && from <= log[i].now <= from + KEY_TTL_SECONDS {
      first := log[i].start;
      if j :| 0 <= j < |log| && from <= log[j].now <= from + KEY_TTL_SECONDS && log[j].start != first {
        second := log[j].start;
        forall k | 0 <= k < |log| && from <= log[k].now <= from + KEY_TTL_SECONDS
          ensures log[k].start == first || log[k].start == second
        {
          assert InWindow(log[i]) && InWindow(log[j]) && InWindow(log[k]);
        }
      }
    }
  }

  /** However requests straddle windows, any 60-second interval admits at most
      twice the limit for one key. */
  lemma TwiceTheLimit(limit: int, keys: map<string, Counter>, admitted: map<string, seq<Admission>>, clock: real,
                      key: string, from: real)
    requires AllInStep(limit, keys, admitted, clock)
    ensures CountBetween(Log(admitted, key), from) <= 2 * Max(limit, 0)
  {
    assert KeyInStep(limit, keys, key, Log(admitted, key), clock);
    var log := Log(admitted, key);
    var first, second := SpanOfTwoWindows(log, from);
    TwoWindows(log, from, first, second);
    assert log == [] ==> CountStart(log, first) == 0 && CountStart(log, second) == 0;
  }
}
