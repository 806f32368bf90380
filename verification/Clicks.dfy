/**
 Recording clicks.  The redirect handler first inserts a click event and then, in a
 second transaction, reads the counter of the link and writes it back plus one.  Any
 failure on the way is swallowed.
 */
module Clicks {
  import opened Wrappers
  import opened Analytics

  // ---- any number of handlers, interleaved ------------------------------------------

  datatype Phase =
    | Arrived
    | Inserted            // the event is committed
    | HasRead(seen: nat)  // the counter has been read
    | Written             // the counter has been committed
    | Failed(recorded: bool)

  datatype Step = Arrive(h: nat) | Insert(h: nat) | Read(h: nat) | Write(h: nat) | Fail(h: nat)

  /** One link: its recorded events, its counter, and the handlers serving it. */
  datatype State = State(events: nat, clickCount: nat, handlers: map<nat, Phase>)

  const IDLE := State(0, 0, map[])

  predicate In(s: State, h: nat, phase: Phase) { h in s.handlers && s.handlers[h] == phase }

  predicate Reading(s: State, h: nat) { h in s.handlers && s.handlers[h].HasRead? }

  predicate Enabled(s: State, step: Step) {
    match step
    case Arrive(h) => h !in s.handlers
    case Insert(h) => In(s, h, Arrived)
    case Read(h) => In(s, h, Inserted)
    case Write(h) => Reading(s, h)
    case Fail(h) => In(s, h, Arrived) || In(s, h, Inserted) || Reading(s, h)
  }

  function Apply(s: State, step: Step): State {
    if !Enabled(s, step) then s
    else match step
    case Arrive(h) => s.(handlers := s.handlers[h := Arrived])
    case Insert(h) => s.(events := s.events + 1, handlers := s.handlers[h := Inserted])
    case Read(h) => s.(handlers := s.handlers[h := HasRead(s.clickCount)])
    case Write(h) => s.(clickCount := s.handlers[h].seen + 1, handlers := s.handlers[h := Written])
    case Fail(h) => s.(handlers := s.handlers[h := Failed(s.handlers[h] != Arrived)])
  }

  ghost function Run(trace: seq<Step>): State {
    if trace == [] then IDLE else Apply(Run(trace[..|trace| - 1]), trace[|trace| - 1])
  }

  /** Every interleaving of any number of handlers. */
  ghost predicate Feasible(trace: seq<Step>) {
    trace != [] ==> Feasible(trace[..|trace| - 1]) && Enabled(Run(trace[..|trace| - 1]), trace[|trace| - 1])
  }

  /** The handlers whose event is in the table. */
  ghost function Recorded(s: State): set<nat> {
    set h | h in s.handlers && s.handlers[h] != Arrived && s.handlers[h] != Failed(false)
  }

  /** The handlers that wrote the counter. */
  ghost function Writers(s: State): set<nat> {
    set h | h in s.handlers && s.handlers[h] == Written
  }

  /** Somebody else wrote the counter between this handler's read and its write. */
  ghost predicate Overtaken(s: State, step: Step) {
    step.Write? && Reading(s, step.h) && s.handlers[step.h].seen != s.clickCount
  }

  ghost predicate Raced(trace: seq<Step>) {
    trace != [] && (Raced(trace[..|trace| - 1]) || Overtaken(Run(trace[..|trace| - 1]), trace[|trace| - 1]))
  }

  /** The counter is one write short from the first race on, and so is everything read. */
  ghost predicate Inv(s: State, raced: bool) {
    var gap := if raced then 1 else 0;
    && s.events == |Recorded(s)|
    && (if raced then s.clickCount < |Writers(s)| else s.clickCount == |Writers(s)|)
    && forall h :: Reading(s, h) ==> s.handlers[h].seen + gap <= |Writers(s)|
  }

  lemma ApplySets(s: State, step: Step)
    requires Enabled(s, step)
    ensures Recorded(Apply(s, step)) == Recorded(s) + if step.Insert? then {step.h} else {}
    ensures Writers(Apply(s, step)) == Writers(s) + if step.Write? then {step.h} else {}
    ensures (step.Insert? ==> step.h !in Recorded(s)) && (step.Write? ==> step.h !in Writers(s))
  {
  }

  lemma ApplySizes(s: State, step: Step)
    requires Enabled(s, step)
    ensures |Recorded(Apply(s, step))| == |Recorded(s)| + if step.Insert? then 1 else 0
    ensures |Writers(Apply(s, step))| == |Writers(s)| + if step.Write? then 1 else 0
  {
    ApplySets(s, step);
    Grown(Recorded(s), Recorded(Apply(s, step)), step.h, step.Insert?);
    Grown(Writers(s), Writers(Apply(s, step)), step.h, step.Write?);
  }

  lemma Grown(a: set<nat>, b: set<nat>, h: nat, added: bool)
    requires b == (a + if added then {h} else {}) && (added ==> h !in a)
    ensures |b| == |a| + if added then 1 else 0
  {
    if !added { assert b == a; }
  }

  lemma ApplyReads(s: State, step: Step, h: nat)
    requires Enabled(s, step) && Reading(Apply(s, step), h)
    ensures if step == Read(h) then Apply(s, step).handlers[h].seen == s.clickCount
            else Reading(s, h) && Apply(s, step).handlers[h] == s.handlers[h]
  {
  }

  lemma ApplyKeepsInv(s: State, step: Step, raced: bool)
    requires Enabled(s, step) && Inv(s, raced)
    ensures Inv(Apply(s, step), raced || Overtaken(s, step))
  {
    var t := Apply(s, step);
    ApplySizes(s, step);
    forall h | Reading(t, h)
      ensures t.handlers[h].seen + (if raced || Overtaken(s, step) then 1 else 0) <= |Writers(t)|
    {
      ApplyReads(s, step, h);
    }
  }

  lemma {:induction false} RunInv(trace: seq<Step>)
    requires Feasible(trace)
    ensures Inv(Run(trace), Raced(trace))
  {
    if trace != [] {
      RunInv(trace[..|trace| - 1]);
      ApplyKeepsInv(Run(trace[..|trace| - 1]), trace[|trace| - 1], Raced(trace[..|trace| - 1]));
    } else {
      assert Recorded(IDLE) == {} && Writers(IDLE) == {};
    }
  }

  lemma SubsetSize(a: set<nat>, b: set<nat>)
    requires a <= b
    ensures |a| <= |b| && (|a| == |b| <==> a == b)
  {
    assert b == a + (b - a);
    assert |b| == |a| + |b - a|;
  }

  /** Whatever interleaves and fails, the counter never exceeds the recorded events. */
  lemma NeverTooHigh(trace: seq<Step>)
    requires Feasible(trace)
    ensures Run(trace).clickCount <= Run(trace).events
  {
    RunInv(trace);
    SubsetSize(Writers(Run(trace)), Recorded(Run(trace)));
  }

  /** It is exact just when no write was overtaken and every recorded click was counted:
      no handler is under way or failed after its insert. */
  lemma ExactIff(trace: seq<Step>)
    requires Feasible(trace)
    ensures Run(trace).clickCount == Run(trace).events <==> !Raced(trace) && Recorded(Run(trace)) == Writers(Run(trace))
  {
    RunInv(trace);
    SubsetSize(Writers(Run(trace)), Recorded(Run(trace)));
  }

  /** At no time have two handlers read the counter without having written it. */
  ghost predicate NoOverlap(trace: seq<Step>) {
    (trace != [] ==> NoOverlap(trace[..|trace| - 1])) &&
    forall h, k :: Reading(Run(trace), h) && Reading(Run(trace), k) ==> h == k
  }

  lemma {:induction false} NoOverlapNoRace(trace: seq<Step>)
    requires Feasible(trace) && NoOverlap(trace)
    ensures !Raced(trace) && forall h :: Reading(Run(trace), h) ==> Run(trace).handlers[h].seen == Run(trace).clickCount
  {
    if trace != [] {
      var init, step := trace[..|trace| - 1], trace[|trace| - 1];
      var s, t := Run(init), Run(trace);
      NoOverlapNoRace(init);
      forall h | Reading(t, h) ensures t.handlers[h].seen == t.clickCount {
        ApplyReads(s, step, h);
        assert step.Write? ==> Reading(s, step.h);
      }
    }
  }

  /** Two handlers that have both read by some time, as seen later in a race-free trace. */
  lemma {:induction false} OnlyOneWrites(trace: seq<Step>, i: nat, h: nat, k: nat)
    requires Feasible(trace) && i <= |trace| && h != k && !Raced(trace)
    requires Reading(Run(trace[..i]), h) && Reading(Run(trace[..i]), k)
    ensures var s, before := Run(trace), Run(trace[..i]).clickCount;
            && s.clickCount >= before
            && h in s.handlers && (s.handlers[h].HasRead? || s.handlers[h].Written? || s.handlers[h].Failed?)
            && k in s.handlers && (s.handlers[k].HasRead? || s.handlers[k].Written? || s.handlers[k].Failed?)
            && (Reading(s, h) ==> s.handlers[h].seen <= before) && (Reading(s, k) ==> s.handlers[k].seen <= before)
            && (s.handlers[h].Written? || s.handlers[k].Written? ==> s.clickCount > before)
            && !(s.handlers[h].Written? && s.handlers[k].Written?)
  {
    if i == |trace| {
      assert trace[..i] == trace;
      RunInv(trace);
    } else {
      var init := trace[..|trace| - 1];
      assert init[..i] == trace[..i];
      OnlyOneWrites(init, i, h, k);
    }
  }

  /** Overlap does lose clicks: once two handlers have both read the counter and both
      write it, the counter stays behind for good. */
  lemma OverlapLosesClicks(trace: seq<Step>, i: nat, h: nat, k: nat)
    requires Feasible(trace) && i <= |trace| && h != k
    requires Reading(Run(trace[..i]), h) && Reading(Run(trace[..i]), k)
    requires In(Run(trace), h, Written) && In(Run(trace), k, Written)
    ensures Run(trace).clickCount < Run(trace).events
  {
    if !Raced(trace) { OnlyOneWrites(trace, i, h, k); }
    ExactIff(trace);
    NeverTooHigh(trace);
  }

  lemma {:induction false} FindOverlap(trace: seq<Step>) returns (i: nat, h: nat, k: nat)
    requires !NoOverlap(trace)
    ensures i <= |trace| && h != k && Reading(Run(trace[..i]), h) && Reading(Run(trace[..i]), k)
  {
    if a, b: nat :| Reading(Run(trace), a) && Reading(Run(trace), b) && a != b {
      i, h, k := |trace|, a, b;
      assert trace[..i] == trace;
    } else {
      i, h, k := FindOverlap(trace[..|trace| - 1]);
      assert trace[..|trace| - 1][..i] == trace[..i];
    }
  }

  /** What has become of a handler that had read the counter. */
  lemma {:induction false} ReadersEnd(trace: seq<Step>, i: nat, h: nat)
    requires i <= |trace| && Reading(Run(trace[..i]), h)
    ensures Reading(Run(trace), h) || In(Run(trace), h, Written) || In(Run(trace), h, Failed(true))
  {
    if i == |trace| {
      assert trace[..i] == trace;
    } else {
      assert trace[..|trace| - 1][..i] == trace[..i];
      ReadersEnd(trace[..|trace| - 1], i, h);
    }
  }

  /** Every handler is done: it has written the counter or has failed somewhere. */
  ghost predicate AtRest(s: State) {
    forall h :: h in s.handlers ==> s.handlers[h].Written? || s.handlers[h].Failed?
  }

  /** At rest the counter is exact if and only if no two handlers overlapped between
      reading and writing it and none failed once its event was in the table. */
  lemma ExactIffNoOverlap(trace: seq<Step>)
    requires Feasible(trace) && AtRest(Run(trace))
    ensures Run(trace).clickCount == Run(trace).events <==>
              NoOverlap(trace) && forall h :: !In(Run(trace), h, Failed(true))
  {
    var s := Run(trace);
    ExactIff(trace);
    if h :| In(s, h, Failed(true)) {
      assert h in Recorded(s) && h !in Writers(s);
    } else if NoOverlap(trace) {
      NoOverlapNoRace(trace);
      AllRecordedWrote(s);
    } else {
      var i, h, k := FindOverlap(trace);
      ReadersEnd(trace, i, h);
      ReadersEnd(trace, i, k);
      OverlapLosesClicks(trace, i, h, k);
    }
  }

  lemma AllRecordedWrote(s: State)
    requires AtRest(s) && forall h :: !In(s, h, Failed(true))
    ensures Recorded(s) == Writers(s)
  {
    forall h | h in Recorded(s) ensures h in Writers(s) {
      assert !In(s, h, Failed(true));
    }
  }

  // ---- one handler after the other --------------------------------------------------------

  datatype ShortUrl = ShortUrl(target: string, expires: Option<int>, clickCount: nat)

  datatype Response = Found(target: string) | NotFound | Gone

  /** Where a request fails, if it does. */
  datatype Fault = NoFault | AtInsert | AtCount

  function EventsOf(events: seq<ClickEvent>, code: string): nat {
    if events == [] then 0
    else EventsOf(events[..|events| - 1], code) + if events[|events| - 1].code == code then 1 else 0
  }

  ghost predicate Covered(urls: map<string, ShortUrl>, events: seq<ClickEvent>) {
    forall code :: code in urls ==> urls[code].clickCount <= EventsOf(events, code)
  }

  lemma OneClick(events: seq<ClickEvent>, e: ClickEvent, code: string)
    ensures EventsOf(events + [e], code) == EventsOf(events, code) + if e.code == code then 1 else 0
  {
    assert (events + [e])[..|events|] == events;
  }

  function Clicked(urls: map<string, ShortUrl>, code: string): map<string, ShortUrl>
    requires code in urls
  {
    urls[code := urls[code].(clickCount := urls[code].clickCount + 1)]
  }

  lemma ClickKeepsCovered(urls: map<string, ShortUrl>, events: seq<ClickEvent>, e: ClickEvent, counted: bool)
    requires Covered(urls, events) && e.code in urls
    ensures Covered(if counted then Clicked(urls, e.code) else urls, events + [e])
    ensures forall other :: other != e.code ==> EventsOf(events + [e], other) == EventsOf(events, other)
    ensures EventsOf(events + [e], e.code) == EventsOf(events, e.code) + 1
  {
    forall other ensures EventsOf(events + [e], other) == EventsOf(events, other) + if e.code == other then 1 else 0 {
      OneClick(events, e, other);
    }
  }

  /** How far a counter lags behind its recorded events. */
  ghost function Lag(urls: map<string, ShortUrl>, events: seq<ClickEvent>, code: string): int
    requires code in urls
  {
    EventsOf(events, code) - urls[code].clickCount
  }

  /** A request makes its link's counter lag one more exactly when it fails between its
      two writes, and no other counter. */
  lemma LagGrowsIff(urls: map<string, ShortUrl>, events: seq<ClickEvent>, e: ClickEvent, fault: Fault, code: string)
    requires Covered(urls, events) && e.code in urls && code in urls
    ensures var urls' := if fault == NoFault then Clicked(urls, e.code) else urls;
            var events' := if fault == AtInsert then events else events + [e];
            Lag(urls', events', code) == Lag(urls, events, code) + if code == e.code && fault == AtCount then 1 else 0
  {
    OneClick(events, e, code);
  }

  /** The links lead where they led, and for as long. */
  ghost predicate SameLinks(was: map<string, ShortUrl>, now: map<string, ShortUrl>) {
    && (forall code :: code in now <==> code in was)
    && (forall code :: code in now ==> now[code].target == was[code].target && now[code].expires == was[code].expires)
  }

  /** The summary of a link over all time accounts for every event recorded for it, and
      so for at least as many as its counter shows. */
  lemma SummaryCoversCounter(urls: map<string, ShortUrl>, events: seq<ClickEvent>, code: string)
    requires Covered(urls, events)
    ensures |Selected(events, code, None, None)| == EventsOf(events, code)
    ensures code in urls ==> urls[code].clickCount <= |Selected(events, code, None, None)|
  {
    AllSelected(events, code);
  }

  lemma {:induction false} AllSelected(events: seq<ClickEvent>, code: string)
    ensures |Selected(events, code, None, None)| == EventsOf(events, code)
  {
    if events != [] { AllSelected(events[..|events| - 1], code); }
  }

  class UrlService {
    var urls: map<string, ShortUrl>
    var events: seq<ClickEvent>

    /** Every counter is covered by recorded events. */
    ghost predicate Valid()
      reads this
    {
      Covered(urls, events)
    }

    constructor (links: map<string, ShortUrl>)
      requires forall code :: code in links ==> links[code].clickCount == 0
      ensures Valid() && urls == links && events == []
    {
      urls, events := links, [];
    }

    method RecordClick(e: ClickEvent, fault: Fault) returns (ok: bool)
      modifies this`events
      ensures ok <==> fault != AtInsert
      ensures events == if ok then old(events) + [e] else old(events)
    {
      ok := fault != AtInsert;
      if ok { events := events + [e]; }
    }

    method IncrementClickCount(code: string, fault: Fault) returns (ok: bool)
      requires code in urls
      modifies this`urls
      ensures ok <==> fault != AtCount
      ensures urls == if ok then Clicked(old(urls), code) else old(urls)
    {
      ok := fault != AtCount;
      var seen := urls[code].clickCount;
      if ok { urls := urls[code := urls[code].(clickCount := seen + 1)]; }
    }

    /** The two writes, in order; a failure of the first skips the second. */
    method Count(e: ClickEvent, fault: Fault)
      requires Covered(urls, events) && e.code in urls
      modifies this
      ensures Covered(urls, events)
      ensures events == if fault == AtInsert then old(events) else old(events) + [e]
      ensures urls == if fault == NoFault then Clicked(old(urls), e.code) else old(urls)
    {
      var ok := RecordClick(e, fault);
      if ok {
        ClickKeepsCovered(urls, old(events), e, fault != AtCount);
        ok := IncrementClickCount(e.code, fault);
      }
    }

    /** No failure blocks the redirect; a counter falls behind exactly when a request for
        it fails between its two writes. */
    method Redirect(code: string, now: int, e: ClickEvent, fault: Fault) returns (r: Response)
      requires Valid() && e.code == code
      modifies this
      ensures Valid()
      ensures r == if code !in old(urls) then NotFound
                   else if old(urls)[code].expires.Some? && now > old(urls)[code].expires.value then Gone
                   else Found(old(urls)[code].target)
      ensures SameLinks(old(urls), urls)
      ensures !r.Found? ==> urls == old(urls) && events == old(events)
      ensures r.Found? ==>
                && events == (if fault == AtInsert then old(events) else old(events) + [e])
                && urls == (if fault == NoFault then Clicked(old(urls), code) else old(urls))
                && forall other :: other in urls ==>
                     Lag(urls, events, other) ==
                       Lag(old(urls), old(events), other) + if other == code && fault == AtCount then 1 else 0
    {
      if code !in urls { return NotFound; }
      var url := urls[code];
      if url.expires.Some? && now > url.expires.value { return Gone; }
      Count(e, fault);
      forall other | other in urls
        ensures Lag(urls, events, other) ==
                  Lag(old(urls), old(events), other) + if other == code && fault == AtCount then 1 else 0
      {
        LagGrowsIff(old(urls), old(events), e, fault, other);
      }
      return Found(url.target);
    }
  }
}
