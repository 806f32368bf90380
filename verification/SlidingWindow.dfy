/** The gateway's per-user rate limiter: a list of timestamps from which old ones are evicted. */
module SlidingWindow {
  const WINDOW_SECONDS: real := 60.0
  const MAX_CALLS: nat := 200

  datatype Call = Call(login: string, now: real)

  /** The timestamps less than 60 seconds old, in order. */
  function Recent(times: seq<real>, now: real): seq<real> {
    if times == [] then []
    else
      var last := times[|times| - 1];
      var kept := Recent(times[..|times| - 1], now);
      if now - last < WINDOW_SECONDS then kept + [last] else kept
  }

  // ---- the rule over the full history ----------------------------------------

  /** The places of the timestamps less than 60 seconds old. */
  ghost function YoungAt(times: seq<real>, now: real): set<nat> {
    set i: nat | i < |times| && now - times[i] < 60.0
  }

  /** When the accepted calls of one user were made, nothing ever being forgotten:
      a call is accepted if fewer than 200 accepted ones are less than 60 s old. */
  ghost function AcceptedTimes(calls: seq<Call>, login: string): seq<real> {
    if calls == [] then []
    else
      var c := calls[|calls| - 1];
      var earlier := AcceptedTimes(calls[..|calls| - 1], login);
      if c.login == login && |YoungAt(earlier, c.now)| < 200 then earlier + [c.now] else earlier
  }

  ghost predicate Allowed(calls: seq<Call>, c: Call) {
    |YoungAt(AcceptedTimes(calls, c.login), c.now)| < 200
  }

  /** Eviction keeps as many timestamps as are young, wherever they stand. */
  lemma {:induction false} RecentAreYoung(times: seq<real>, now: real)
    ensures |Recent(times, now)| == |YoungAt(times, now)|
  {
    if times != [] {
      var n := |times| - 1;
      RecentAreYoung(times[..n], now);
      assert YoungAt(times, now) == YoungAt(times[..n], now) + if now - times[n] < 60.0 then {n} else {};
    }
  }

  // ---- the limiter -------------------------------------------------------------

  function Window(windows: map<string, seq<real>>, login: string): seq<real> {
    if login in windows then windows[login] else []
  }

  /** From `clock` on, the window and the full history look the same. */
  ghost predicate SameView(window: seq<real>, history: seq<real>, clock: real) {
    forall now :: clock <= now ==> Recent(window, now) == Recent(history, now)
  }

  class RateLimiter {
    var windows: map<string, seq<real>>
    ghost var calls: seq<Call>  // every call so far, refused ones included
    ghost var clock: real       // no call was made later than this

    /** What was evicted could not have counted any more. */
    ghost predicate Valid()
      reads this
    {
      forall login :: SameView(Window(windows, login), AcceptedTimes(calls, login), clock)
    }

    constructor (start: real)
      ensures Valid() && calls == [] && clock == start && windows == map[]
    {
      windows, calls, clock := map[], [], start;
    }

    method Check(login: string, now: real) returns (accepted: bool)
      requires Valid() && clock <= now
      modifies this
      ensures Valid() && clock == now && calls == old(calls) + [Call(login, now)]
      ensures var times := AcceptedTimes(old(calls), login);
              accepted <==> |set i: nat | i < |times| && now - times[i] < 60.0| < 200
      ensures forall other :: other != login ==> Window(windows, other) == Window(old(windows), other)
      ensures !accepted ==> windows == old(windows)
    {
      ghost var history := AcceptedTimes(calls, login);
      assert SameView(Window(windows, login), history, clock);
      var window := Recent(Window(windows, login), now);
      accepted := |window| < MAX_CALLS;
      assert window == Recent(history, now);
      RecentAreYoung(history, now);
      if accepted {
        Accept(Window(windows, login), history, clock, now);
        windows := windows[login := window + [now]];
      }
      calls := calls + [Call(login, now)];
      clock := now;
      assert calls[..|calls| - 1] == old(calls);
      forall other ensures SameView(Window(windows, other), AcceptedTimes(calls, other), clock) {
        assert SameView(Window(old(windows), other), AcceptedTimes(old(calls), other), old(clock));
      }
    }
  }

  lemma Accept(window: seq<real>, history: seq<real>, clock: real, now: real)
    requires SameView(window, history, clock) && clock <= now
    ensures SameView(Recent(window, now) + [now], history + [now], now)
  {
    var kept := Recent(window, now);
    forall later | now <= later ensures Recent(kept + [now], later) == Recent(history + [now], later) {
      EvictingTwice(window, now, later);
      assert (kept + [now])[..|kept|] == kept && (history + [now])[..|history|] == history;
    }
  }

  /** Evicting early and then again is the same as evicting once, later. */
  lemma {:induction false} EvictingTwice(times: seq<real>, now: real, later: real)
    requires now <= later
    ensures Recent(Recent(times, now), later) == Recent(times, later)
  {
    if times != [] {
      var init, last := times[..|times| - 1], times[|times| - 1];
      EvictingTwice(init, now, later);
      if now - last < WINDOW_SECONDS {
        assert (Recent(init, now) + [last])[..|Recent(init, now)|] == Recent(init, now);
      }
    }
  }

  // ---- what the rule guarantees ---------------------------------------------------

  /** The places of the timestamps that fall into [from, from + 60). */
  ghost function PlacesIn(times: seq<real>, from: real): set<nat> {
    set i: nat | i < |times| && from <= times[i] < from + 60.0
  }

  lemma PlacesAreYoung(times: seq<real>, from: real, now: real)
    requires from <= now < from + 60.0
    ensures |PlacesIn(times, from)| <= |YoungAt(times, now)|
  {
    SubsetSize(PlacesIn(times, from), YoungAt(times, now));
  }

  lemma SubsetSize(a: set<nat>, b: set<nat>)
    requires a <= b
    ensures |a| <= |b|
  {
    assert b == a + (b - a);
  }

  lemma PlacesStep(times: seq<real>, now: real, from: real)
    ensures |PlacesIn(times + [now], from)| == |PlacesIn(times, from)| + if from <= now < from + 60.0 then 1 else 0
  {
    assert PlacesIn(times + [now], from) ==
             PlacesIn(times, from) + if from <= now < from + 60.0 then {|times|} else {};
  }

  /** No 60-second window contains more than 200 accepted calls of one user. */
  lemma {:induction false} NoBurst(calls: seq<Call>, login: string, from: real)
    ensures |PlacesIn(AcceptedTimes(calls, login), from)| <= 200
  {
    if calls != [] {
      var c := calls[|calls| - 1];
      var earlier := AcceptedTimes(calls[..|calls| - 1], login);
      NoBurst(calls[..|calls| - 1], login, from);
      PlacesStep(earlier, c.now, from);
      if from <= c.now < from + 60.0 { PlacesAreYoung(earlier, from, c.now); }
    }
  }

  /** The calls of `login` that were accepted. */
  ghost function OwnAccepted(calls: seq<Call>, login: string): seq<Call> {
    if calls == [] then []
    else
      var init, c := calls[..|calls| - 1], calls[|calls| - 1];
      var own := OwnAccepted(init, login);
      if c.login == login && Allowed(init, c) then own + [c] else own
  }

  /** Refused calls and other users' calls never change what a user is allowed. */
  lemma {:induction false} OnlyOwnAcceptedCallsMatter(calls: seq<Call>, login: string)
    ensures AcceptedTimes(OwnAccepted(calls, login), login) == AcceptedTimes(calls, login)
  {
    if calls != [] {
      var init, c := calls[..|calls| - 1], calls[|calls| - 1];
      OnlyOwnAcceptedCallsMatter(init, login);
      var own := OwnAccepted(init, login);
      assert (own + [c])[..|own|] == own;
    }
  }
}
