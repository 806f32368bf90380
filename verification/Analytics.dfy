/** The click summary of one link: selected events, counters, rankings. */
module Analytics {
  import opened Wrappers
  import TextOrder

  datatype ClickEvent = ClickEvent(code: string, clickedAt: int, ipHash: Option<string>, device: Option<string>,
                                   country: Option<string>, referrer: Option<string>)

  // ---- counters ----------------------------------------------------------------------

  /** Keys with their counts, in the order in which the keys were first seen. */
  type Counter = seq<(string, nat)>

  function Bump(c: Counter, key: string): Counter {
    if c == [] then [(key, 1)]
    else if c[0].0 == key then [(key, c[0].1 + 1)] + c[1..]
    else [c[0]] + Bump(c[1..], key)
  }

  function Count(keys: seq<string>): Counter {
    if keys == [] then [] else Bump(Count(keys[..|keys| - 1]), keys[|keys| - 1])
  }

  function Total(c: Counter): nat {
    if c == [] then 0 else c[0].1 + Total(c[1..])
  }

  function At(c: Counter, key: string): nat {
    if c == [] then 0 else if c[0].0 == key then c[0].1 else At(c[1..], key)
  }

  /** No key twice, and no key without a count. */
  ghost predicate Proper(c: Counter) {
    c != [] ==> c[0].1 > 0 && At(c[1..], c[0].0) == 0 && Proper(c[1..])
  }

  lemma {:induction false} Bumped(c: Counter, key: string, k: string)
    requires Proper(c)
    ensures Proper(Bump(c, key)) && Total(Bump(c, key)) == Total(c) + 1
    ensures At(Bump(c, key), k) == At(c, k) + if k == key then 1 else 0
  {
    if c != [] {
      assert Bump(c, key)[1..] == if c[0].0 == key then c[1..] else Bump(c[1..], key);
      Bumped(c[1..], key, k);
      Bumped(c[1..], key, c[0].0);
    }
  }

  lemma OneMoreKey(keys: seq<string>, last: string, key: string)
    ensures multiset(keys + [last])[key] == multiset(keys)[key] + if last == key then 1 else 0
  {
  }

  ghost predicate IsHistogram(c: Counter, keys: seq<string>, key: string) {
    Proper(c) && Total(c) == |keys| && At(c, key) == multiset(keys)[key]
  }

  lemma HistogramStep(keys: seq<string>, init: seq<string>, last: string, key: string)
    requires IsHistogram(Count(init), init, key) && keys == init + [last]
    ensures IsHistogram(Count(keys), keys, key)
  {
    assert keys[..|keys| - 1] == init;
    OneMoreKey(init, last, key);
    Bumped(Count(init), last, key);
  }

  /** Counting loses nothing: every key has its number of occurrences, and the counts
      add up to the number of keys counted. */
  lemma {:induction false} CountIsHistogram(keys: seq<string>, key: string)
    ensures IsHistogram(Count(keys), keys, key)
  {
    if keys != [] {
      var init, last := keys[..|keys| - 1], keys[|keys| - 1];
      CountIsHistogram(init, key);
      HistogramStep(keys, init, last, key);
    }
  }

  lemma {:induction false} Entries(c: Counter, e: (string, nat))
    requires Proper(c)
    ensures e in c <==> e.1 > 0 && At(c, e.0) == e.1
  {
    if c != [] {
      assert c == [c[0]] + c[1..];
      Entries(c[1..], e);
    }
  }

  /** An entry is listed exactly when it is right. */
  lemma HistogramEntries(keys: seq<string>, e: (string, nat))
    ensures e in Count(keys) <==> e.1 > 0 && e.1 == multiset(keys)[e.0]
  {
    CountIsHistogram(keys, e.0);
    Entries(Count(keys), e);
  }

  // ---- rankings -----------------------------------------------------------------------

  /** Before the first entry with no larger count, so that ties keep their order. */
  function InsertByCount(x: (string, nat), c: Counter): Counter {
    if c == [] then [x]
    else if c[0].1 <= x.1 then [x] + c
    else [c[0]] + InsertByCount(x, c[1..])
  }

  /** `most_common()`: a stable sort by descending count. */
  function MostCommon(c: Counter): Counter {
    if c == [] then [] else InsertByCount(c[0], MostCommon(c[1..]))
  }

  ghost predicate Below(c: Counter, n: nat) {
    c != [] ==> c[0].1 <= n && Below(c[1..], n)
  }

  ghost predicate Descending(c: Counter) {
    c != [] ==> Below(c[1..], c[0].1) && Descending(c[1..])
  }

  lemma {:induction false} BelowMore(c: Counter, m: nat, n: nat)
    requires Below(c, m) && m <= n
    ensures Below(c, n)
  {
    if c != [] { BelowMore(c[1..], m, n); }
  }

  /** Earlier entries have no smaller counts. */
  lemma {:induction false} DescendingAt(c: Counter, i: nat, j: nat)
    requires Descending(c) && i < j < |c|
    ensures c[i].1 >= c[j].1
  {
    if i == 0 { BelowAt(c[1..], c[0].1, j - 1); } else { DescendingAt(c[1..], i - 1, j - 1); }
  }

  lemma {:induction false} BelowAt(c: Counter, n: nat, i: nat)
    requires Below(c, n) && i < |c|
    ensures c[i].1 <= n
  {
    if i > 0 { BelowAt(c[1..], n, i - 1); }
  }

  /** The entries with count `n`, in order. */
  ghost function WithCount(c: Counter, n: nat): Counter {
    if c == [] then [] else if c[0].1 == n then [c[0]] + WithCount(c[1..], n) else WithCount(c[1..], n)
  }

  lemma {:induction false} InsertedBelow(x: (string, nat), c: Counter, n: nat)
    requires Below(c, n) && x.1 <= n
    ensures Below(InsertByCount(x, c), n)
  {
    if c == [] {
    } else if c[0].1 <= x.1 {
      assert InsertByCount(x, c)[1..] == c;
    } else {
      assert InsertByCount(x, c)[1..] == InsertByCount(x, c[1..]);
      InsertedBelow(x, c[1..], n);
    }
  }

  lemma {:induction false} InsertedDescends(x: (string, nat), c: Counter)
    requires Descending(c)
    ensures Descending(InsertByCount(x, c))
  {
    assert ([x] + c)[1..] == c;
    if c != [] && c[0].1 <= x.1 {
      BelowMore(c[1..], c[0].1, x.1);
    } else if c != [] {
      assert ([c[0]] + InsertByCount(x, c[1..]))[1..] == InsertByCount(x, c[1..]);
      InsertedDescends(x, c[1..]);
      InsertedBelow(x, c[1..], c[0].1);
    }
  }

  lemma {:induction false} InsertedByCount(x: (string, nat), c: Counter, n: nat)
    requires Descending(c)
    ensures Total(InsertByCount(x, c)) == x.1 + Total(c)
    ensures WithCount(InsertByCount(x, c), n) == WithCount([x] + c, n)
    ensures multiset(InsertByCount(x, c)) == multiset{x} + multiset(c)
  {
    assert ([x] + c)[1..] == c;
    if c != [] && c[0].1 > x.1 {
      var r := InsertByCount(x, c[1..]);
      assert c == [c[0]] + c[1..] && ([x] + c[1..])[1..] == c[1..] && ([c[0]] + r)[1..] == r;
      InsertedByCount(x, c[1..], n);
    }
  }

  /** The ranking is the one descending order in which ties keep their place. */
  lemma {:induction false} MostCommonIsStable(c: Counter, n: nat)
    ensures Descending(MostCommon(c)) && Total(MostCommon(c)) == Total(c)
    ensures multiset(MostCommon(c)) == multiset(c)
    ensures WithCount(MostCommon(c), n) == WithCount(c, n)
  {
    if c != [] {
      assert c == [c[0]] + c[1..];
      MostCommonIsStable(c[1..], n);
      InsertedByCount(c[0], MostCommon(c[1..]), n);
      InsertedDescends(c[0], MostCommon(c[1..]));
      assert ([c[0]] + MostCommon(c[1..]))[1..] == MostCommon(c[1..]);
    }
  }

  // ---- the ten best ----------------------------------------------------------------------

  const TOP: nat := 10

  function Top(c: Counter): Counter {
    if |c| <= TOP then c else c[..TOP]
  }

  lemma {:induction false} TotalSplits(c: Counter, d: Counter)
    ensures Total(c + d) == Total(c) + Total(d)
  {
    if c == [] {
      assert c + d == d;
    } else {
      assert (c + d)[1..] == c[1..] + d;
      TotalSplits(c[1..], d);
    }
  }

  lemma {:induction false} PositiveTotal(c: Counter)
    requires forall e :: e in c ==> e.1 > 0
    ensures Total(c) >= |c|
  {
    if c != [] {
      assert forall e :: e in c[1..] ==> e in c;
      PositiveTotal(c[1..]);
    }
  }

  /** No omitted entry beats a listed one, and the listed ones add up to everything
      exactly when there are at most ten. */
  lemma TopIsBest(keys: seq<string>)
    ensures var c := Count(keys);
            var top := Top(MostCommon(c));
            && (forall e, f :: e in top && f in MostCommon(c)[|top|..] ==> e.1 >= f.1)
            && |top| == (if |c| <= 10 then |c| else 10) && (Total(top) == |keys| <==> |c| <= 10)
            && Total(top) <= |keys|
  {
    var c := Count(keys);
    var all := MostCommon(c);
    var top := Top(all);
    var rest := all[|top|..];
    MostCommonIsStable(c, 0);
    CountIsHistogram(keys, "");
    SameSize(all, c);
    assert all == top + rest;
    TotalSplits(top, rest);
    RankedArePositive(c, |top|);
    PositiveTotal(rest);
    forall e, f | e in top && f in rest ensures e.1 >= f.1 { RankedBefore(all, |top|, e, f); }
  }

  lemma RankedArePositive(c: Counter, k: nat)
    requires Proper(c) && multiset(MostCommon(c)) == multiset(c) && k <= |MostCommon(c)|
    ensures forall e :: e in MostCommon(c)[k..] ==> e.1 > 0
  {
    forall e | e in MostCommon(c)[k..] ensures e.1 > 0 {
      assert e in MostCommon(c) && e in multiset(MostCommon(c));
      Entries(c, e);
    }
  }

  lemma RankedBefore(all: Counter, k: nat, e: (string, nat), f: (string, nat))
    requires Descending(all) && k <= |all| && e in all[..k] && f in all[k..]
    ensures e.1 >= f.1
  {
    var i :| 0 <= i < k && all[..k][i] == e;
    var j :| 0 <= j < |all| - k && all[k..][j] == f;
    DescendingAt(all, i, k + j);
  }

  lemma SameSize(c: Counter, d: Counter)
    requires multiset(c) == multiset(d)
    ensures |c| == |d|
  {
    assert |multiset(c)| == |c| && |multiset(d)| == |d|;
  }

  // ---- by date -----------------------------------------------------------------------------

  function InsertByKey(x: (string, nat), c: Counter): Counter {
    if c == [] || TextOrder.Less(x.0, c[0].0) then [x] + c else [c[0]] + InsertByKey(x, c[1..])
  }

  /** The entries sorted by key; the keys are distinct. */
  function ByKey(c: Counter): Counter {
    if c == [] then [] else InsertByKey(c[0], ByKey(c[1..]))
  }

  ghost predicate Above(c: Counter, key: string) {
    c != [] ==> TextOrder.Less(key, c[0].0) && Above(c[1..], key)
  }

  ghost predicate Ascending(c: Counter) {
    c != [] ==> Above(c[1..], c[0].0) && Ascending(c[1..])
  }

  lemma {:induction false} AboveAt(c: Counter, key: string, i: nat)
    requires Above(c, key) && i < |c|
    ensures TextOrder.Less(key, c[i].0)
  {
    if i > 0 { AboveAt(c[1..], key, i - 1); }
  }

  /** Later dates are strictly later. */
  lemma {:induction false} AscendingAt(c: Counter, i: nat, j: nat)
    requires Ascending(c) && i < j < |c|
    ensures TextOrder.Less(c[i].0, c[j].0)
  {
    if i == 0 { AboveAt(c[1..], c[0].0, j - 1); } else { AscendingAt(c[1..], i - 1, j - 1); }
  }

  lemma {:induction false} AboveLess(c: Counter, low: string, key: string)
    requires Above(c, key) && TextOrder.Less(low, key)
    ensures Above(c, low)
  {
    if c != [] {
      TextOrder.Transitive(low, key, c[0].0);
      AboveLess(c[1..], low, key);
    }
  }

  lemma {:induction false} InsertedAbove(x: (string, nat), c: Counter, key: string)
    requires Above(c, key) && TextOrder.Less(key, x.0)
    ensures Above(InsertByKey(x, c), key)
  {
    var r := InsertByKey(x, c);
    if c == [] || TextOrder.Less(x.0, c[0].0) {
      assert r[1..] == c;
    } else {
      assert r[1..] == InsertByKey(x, c[1..]);
      InsertedAbove(x, c[1..], key);
    }
  }

  ghost predicate Lacks(c: Counter, key: string) {
    c != [] ==> c[0].0 != key && Lacks(c[1..], key)
  }

  lemma {:induction false} InsertedByKey(x: (string, nat), c: Counter)
    requires Ascending(c) && Lacks(c, x.0)
    ensures Ascending(InsertByKey(x, c)) && multiset(InsertByKey(x, c)) == multiset{x} + multiset(c)
    ensures Total(InsertByKey(x, c)) == x.1 + Total(c)
    ensures forall key :: key != x.0 && Lacks(c, key) ==> Lacks(InsertByKey(x, c), key)
  {
    var r := InsertByKey(x, c);
    if c == [] {
    } else if TextOrder.Less(x.0, c[0].0) {
      assert r[1..] == c;
      AboveLess(c[1..], x.0, c[0].0);
    } else {
      assert r[1..] == InsertByKey(x, c[1..]) && c == [c[0]] + c[1..];
      InsertedByKey(x, c[1..]);
      TextOrder.Total(x.0, c[0].0);
      InsertedAbove(x, c[1..], c[0].0);
    }
  }

  lemma {:induction false} LacksAbsent(c: Counter, key: string)
    requires Proper(c) && At(c, key) == 0
    ensures Lacks(c, key)
  {
    if c != [] { LacksAbsent(c[1..], key); }
  }

  /** The dates come in strictly ascending order, with nothing added or lost. */
  lemma {:induction false} ByKeyIsAscending(c: Counter)
    requires Proper(c)
    ensures Ascending(ByKey(c)) && multiset(ByKey(c)) == multiset(c) && Total(ByKey(c)) == Total(c)
    ensures forall key :: Lacks(c, key) ==> Lacks(ByKey(c), key)
  {
    if c != [] {
      assert c == [c[0]] + c[1..];
      ByKeyIsAscending(c[1..]);
      LacksAbsent(c[1..], c[0].0);
      InsertedByKey(c[0], ByKey(c[1..]));
    }
  }

  // ---- the summary ---------------------------------------------------------------------------

  /** The events of the link within the dates asked for; both ends count. */
  predicate InRange(e: ClickEvent, code: string, from: Option<int>, to: Option<int>) {
    e.code == code && (from.None? || from.value <= e.clickedAt) && (to.None? || e.clickedAt <= to.value)
  }

  function Selected(events: seq<ClickEvent>, code: string, from: Option<int>, to: Option<int>): seq<ClickEvent> {
    if events == [] then []
    else
      var earlier, e := Selected(events[..|events| - 1], code, from, to), events[|events| - 1];
      if InRange(e, code, from, to) then earlier + [e] else earlier
  }

  /** Exactly the clicks on this link between the two dates are selected, as often as
      they are in the table. */
  lemma {:induction false} SelectedExactly(table: seq<ClickEvent>, code: string, from: Option<int>, to: Option<int>, e: ClickEvent)
    ensures multiset(Selected(table, code, from, to))[e] ==
              if e.code == code && (from == None || from.value <= e.clickedAt) && (to == None || e.clickedAt <= to.value)
              then multiset(table)[e] else 0
  {
    if table != [] {
      var init := table[..|table| - 1];
      assert table == init + [table[|table| - 1]];
      SelectedExactly(init, code, from, to, e);
    }
  }

  /** Two ranges of dates that meet account for the range they make up. */
  lemma {:induction false} RangesAddUp(table: seq<ClickEvent>, code: string, from: Option<int>, middle: int, to: Option<int>)
    requires (from.Some? ==> from.value <= middle + 1) && (to.Some? ==> middle <= to.value)
    ensures |Selected(table, code, from, to)| ==
              |Selected(table, code, from, Some(middle))| + |Selected(table, code, Some(middle + 1), to)|
  {
    if table != [] { RangesAddUp(table[..|table| - 1], code, from, middle, to); }
  }

  /** The places in the table of the selected clicks that go by the name `k`. */
  ghost function Places(table: seq<ClickEvent>, code: string, from: Option<int>, to: Option<int>,
                        names: (ClickEvent, string) -> bool, k: string): set<nat> {
    set i: nat | i < |table| && InRange(table[i], code, from, to) && names(table[i], k)
  }

  lemma {:induction false} KeysAreAtPlaces(table: seq<ClickEvent>, code: string, from: Option<int>, to: Option<int>,
                                           key: ClickEvent -> string, names: (ClickEvent, string) -> bool, k: string)
    requires forall e :: names(e, k) <==> key(e) == k
    ensures multiset(Map(Selected(table, code, from, to), key))[k] == |Places(table, code, from, to, names, k)|
  {
    if table != [] {
      var n := |table| - 1;
      KeysAreAtPlaces(table[..n], code, from, to, key, names, k);
      MapStep(Selected(table[..n], code, from, to), table[n], key);
      PlacesStep(table, code, from, to, names, k);
    } else {
      assert Places(table, code, from, to, names, k) == {};
    }
  }

  lemma PlacesStep(table: seq<ClickEvent>, code: string, from: Option<int>, to: Option<int>,
                   names: (ClickEvent, string) -> bool, k: string)
    requires table != []
    ensures var n := |table| - 1;
            |Places(table, code, from, to, names, k)| ==
              |Places(table[..n], code, from, to, names, k)| + if InRange(table[n], code, from, to) && names(table[n], k) then 1 else 0
  {
    var n := |table| - 1;
    var before, here := Places(table[..n], code, from, to, names, k), Places(table, code, from, to, names, k);
    var added := InRange(table[n], code, from, to) && names(table[n], k);
    forall i: nat ensures i in here <==> i in before || (i == n && added) {}
    OneMoreMember(before, here, n, added);
  }

  lemma OneMoreMember(before: set<nat>, here: set<nat>, n: nat, added: bool)
    requires n !in before && forall i: nat :: i in here <==> i in before || (i == n && added)
    ensures |here| == |before| + if added then 1 else 0
  {
    if added { assert here == before + {n}; } else { assert here == before; }
  }

  lemma MapStep(events: seq<ClickEvent>, e: ClickEvent, key: ClickEvent -> string)
    ensures Map(events + [e], key) == Map(events, key) + [key(e)]
    ensures forall k :: multiset(Map(events + [e], key))[k] == multiset(Map(events, key))[k] + if key(e) == k then 1 else 0
  {
  }

  /** An entry is listed exactly if that many selected clicks go by its name. */
  ghost predicate Tabulates(c: Counter, table: seq<ClickEvent>, code: string, from: Option<int>, to: Option<int>,
                            names: (ClickEvent, string) -> bool) {
    forall k: string, n: nat :: (k, n) in c <==> n > 0 && n == |Places(table, code, from, to, names, k)|
  }

  lemma SelectedTabulates(c: Counter, table: seq<ClickEvent>, code: string, from: Option<int>, to: Option<int>,
                          key: ClickEvent -> string, names: (ClickEvent, string) -> bool)
    requires forall e, k :: names(e, k) <==> key(e) == k
    requires multiset(c) == multiset(Count(Map(Selected(table, code, from, to), key)))
    ensures Tabulates(c, table, code, from, to, names)
  {
    var keys := Map(Selected(table, code, from, to), key);
    forall k: string, n: nat ensures (k, n) in c <==> n > 0 && n == |Places(table, code, from, to, names, k)| {
      HistogramEntries(keys, (k, n));
      KeysAreAtPlaces(table, code, from, to, key, names, k);
      assert (k, n) in c <==> (k, n) in multiset(c);
      assert (k, n) in Count(keys) <==> (k, n) in multiset(Count(keys));
    }
  }

  /** At most ten right entries; a name that is left out has no more clicks than any of ten listed. */
  ghost predicate TenBest(top: Counter, table: seq<ClickEvent>, code: string, from: Option<int>, to: Option<int>,
                          names: (ClickEvent, string) -> bool) {
    && |top| <= 10
    && (forall k: string, n: nat :: (k, n) in top ==> n > 0 && n == |Places(table, code, from, to, names, k)|)
    && (forall k: string :: (k, |Places(table, code, from, to, names, k)|) in top
                            || |Places(table, code, from, to, names, k)| == 0
                            || (|top| == 10 && forall e :: e in top ==> e.1 >= |Places(table, code, from, to, names, k)|))
  }

  lemma TopIsTenBest(table: seq<ClickEvent>, code: string, from: Option<int>, to: Option<int>,
                     key: ClickEvent -> string, names: (ClickEvent, string) -> bool)
    requires forall e, k :: names(e, k) <==> key(e) == k
    ensures TenBest(Top(MostCommon(Count(Map(Selected(table, code, from, to), key)))), table, code, from, to, names)
  {
    var keys := Map(Selected(table, code, from, to), key);
    var all := MostCommon(Count(keys));
    MostCommonIsStable(Count(keys), 0);
    SelectedTabulates(all, table, code, from, to, key, names);
    TopOfRanking(all, table, code, from, to, names);
  }

  lemma TopOfRanking(all: Counter, table: seq<ClickEvent>, code: string, from: Option<int>, to: Option<int>,
                     names: (ClickEvent, string) -> bool)
    requires Descending(all) && Tabulates(all, table, code, from, to, names)
    ensures TenBest(Top(all), table, code, from, to, names)
  {
    var top, rest := Top(all), all[|Top(all)|..];
    TopAndRest(all);
    forall e, f | e in top && f in rest ensures e.1 >= f.1 { RankedBefore(all, |top|, e, f); }
    RestOfRanking(all, top, rest, table, code, from, to, names);
  }

  lemma TopAndRest(all: Counter)
    ensures var top, rest := Top(all), all[|Top(all)|..];
            all == top + rest && top == all[..|top|] && |top| <= 10 && (rest != [] ==> |top| == 10)
  {
  }

  lemma RestOfRanking(all: Counter, top: Counter, rest: Counter, table: seq<ClickEvent>, code: string,
                      from: Option<int>, to: Option<int>, names: (ClickEvent, string) -> bool)
    requires Tabulates(all, table, code, from, to, names) && all == top + rest
    requires |top| <= 10 && (rest != [] ==> |top| == 10) && forall e, f :: e in top && f in rest ==> e.1 >= f.1
    ensures TenBest(top, table, code, from, to, names)
  {
    assert forall e :: e in all <==> e in top || e in rest;
    forall k: string
      ensures (k, |Places(table, code, from, to, names, k)|) in top
              || |Places(table, code, from, to, names, k)| == 0
              || (|top| == 10 && forall e :: e in top ==> e.1 >= |Places(table, code, from, to, names, k)|)
    {
      var mine := (k, |Places(table, code, from, to, names, k)|);
      assert mine.1 > 0 ==> mine in all;
    }
  }

  function Or(text: Option<string>, default: string): string {
    if text.None? || text.value == "" then default else text.value
  }

  /** The host of the referrer; `None` stands for text that is no URL. */
  function Referrer(text: Option<string>, hostOf: string -> Option<string>): string {
    if text.None? || text.value == "" then "direct" else Or(hostOf(text.value), "direct")
  }

  /** What the click is listed under when `text` is kept for it: the text, or a default for none. */
  predicate Named(text: Option<string>, default: string, k: string) {
    (text == Some(k) && k != "") || (k == default && (text == None || text == Some("")))
  }

  /** The host of the referrer, if it has one that can be told, and otherwise "direct". */
  predicate ReferredFrom(text: Option<string>, hostOf: string -> Option<string>, k: string) {
    if text == None || text == Some("") then k == "direct" else Named(hostOf(text.value), "direct", k)
  }

  function Map(events: seq<ClickEvent>, key: ClickEvent -> string): seq<string> {
    seq(|events|, i requires 0 <= i < |events| => key(events[i]))
  }

  datatype Summary = Summary(totalClicks: nat, uniqueClicks: nat, byDate: Counter, byCountry: Counter,
                             byDevice: Counter, topReferrers: Counter)

  /** Every table of the summary accounts for every selected event. */
  ghost predicate AddsUp(r: Summary) {
    && Total(r.byDate) == r.totalClicks && Total(r.byCountry) == r.totalClicks && Total(r.byDevice) == r.totalClicks
  }

  /** Dates strictly ascend, the other tables never do. */
  ghost predicate InOrder(r: Summary) {
    && (forall i, j :: 0 <= i < j < |r.byDate| ==> TextOrder.Less(r.byDate[i].0, r.byDate[j].0))
    && (forall i, j :: 0 <= i < j < |r.byCountry| ==> r.byCountry[i].1 >= r.byCountry[j].1)
    && (forall i, j :: 0 <= i < j < |r.byDevice| ==> r.byDevice[i].1 >= r.byDevice[j].1)
  }

  lemma SortedIsInOrder(r: Summary)
    requires Ascending(r.byDate) && Descending(r.byCountry) && Descending(r.byDevice)
    ensures InOrder(r)
  {
    forall i, j | 0 <= i < j < |r.byDate| ensures TextOrder.Less(r.byDate[i].0, r.byDate[j].0) {
      AscendingAt(r.byDate, i, j);
    }
    forall i, j | 0 <= i < j < |r.byCountry| ensures r.byCountry[i].1 >= r.byCountry[j].1 {
      DescendingAt(r.byCountry, i, j);
    }
    forall i, j | 0 <= i < j < |r.byDevice| ensures r.byDevice[i].1 >= r.byDevice[j].1 {
      DescendingAt(r.byDevice, i, j);
    }
  }

  /** Every table by what it says about the click table: how many selected clicks fell on
      a day, came from a country or a kind of device, or were referred by a host. */
  ghost predicate Accounts(r: Summary, table: seq<ClickEvent>, code: string, from: Option<int>, to: Option<int>,
                           dateOf: int -> string, hostOf: string -> Option<string>) {
    && Tabulates(r.byDate, table, code, from, to, (e: ClickEvent, k: string) => dateOf(e.clickedAt) == k)
    && Tabulates(r.byCountry, table, code, from, to, (e: ClickEvent, k: string) => Named(e.country, "unknown", k))
    && Tabulates(r.byDevice, table, code, from, to, (e: ClickEvent, k: string) => Named(e.device, "unknown", k))
    && TenBest(r.topReferrers, table, code, from, to, (e: ClickEvent, k: string) => ReferredFrom(e.referrer, hostOf, k))
  }

  lemma CountryTable(table: seq<ClickEvent>, code: string, from: Option<int>, to: Option<int>)
    ensures Tabulates(MostCommon(Count(Map(Selected(table, code, from, to), (e: ClickEvent) => Or(e.country, "unknown")))),
                      table, code, from, to, (e: ClickEvent, k: string) => Named(e.country, "unknown", k))
  {
    MostCommonIsStable(Count(Map(Selected(table, code, from, to), (e: ClickEvent) => Or(e.country, "unknown"))), 0);
    SelectedTabulates(MostCommon(Count(Map(Selected(table, code, from, to), (e: ClickEvent) => Or(e.country, "unknown")))),
                      table, code, from, to, (e: ClickEvent) => Or(e.country, "unknown"),
                      (e: ClickEvent, k: string) => Named(e.country, "unknown", k));
  }

  lemma DeviceTable(table: seq<ClickEvent>, code: string, from: Option<int>, to: Option<int>)
    ensures Tabulates(MostCommon(Count(Map(Selected(table, code, from, to), (e: ClickEvent) => Or(e.device, "unknown")))),
                      table, code, from, to, (e: ClickEvent, k: string) => Named(e.device, "unknown", k))
  {
    MostCommonIsStable(Count(Map(Selected(table, code, from, to), (e: ClickEvent) => Or(e.device, "unknown"))), 0);
    SelectedTabulates(MostCommon(Count(Map(Selected(table, code, from, to), (e: ClickEvent) => Or(e.device, "unknown")))),
                      table, code, from, to, (e: ClickEvent) => Or(e.device, "unknown"),
                      (e: ClickEvent, k: string) => Named(e.device, "unknown", k));
  }

  lemma DateTable(c: Counter, table: seq<ClickEvent>, code: string, from: Option<int>, to: Option<int>, dateOf: int -> string)
    requires multiset(c) == multiset(Count(Map(Selected(table, code, from, to), (e: ClickEvent) => dateOf(e.clickedAt))))
    ensures Tabulates(c, table, code, from, to, (e: ClickEvent, k: string) => dateOf(e.clickedAt) == k)
  {
    SelectedTabulates(c, table, code, from, to, (e: ClickEvent) => dateOf(e.clickedAt),
                      (e: ClickEvent, k: string) => dateOf(e.clickedAt) == k);
  }

  lemma ReferrerTable(table: seq<ClickEvent>, code: string, from: Option<int>, to: Option<int>, hostOf: string -> Option<string>)
    ensures TenBest(Top(MostCommon(Count(Map(Selected(table, code, from, to), (e: ClickEvent) => Referrer(e.referrer, hostOf))))),
                    table, code, from, to, (e: ClickEvent, k: string) => ReferredFrom(e.referrer, hostOf, k))
  {
    TopIsTenBest(table, code, from, to, (e: ClickEvent) => Referrer(e.referrer, hostOf),
                 (e: ClickEvent, k: string) => ReferredFrom(e.referrer, hostOf, k));
  }

  lemma SummaryAccounts(r: Summary, table: seq<ClickEvent>, code: string, from: Option<int>, to: Option<int>,
                        dateOf: int -> string, hostOf: string -> Option<string>)
    requires var events := Selected(table, code, from, to);
             && multiset(r.byDate) == multiset(Count(Map(events, (e: ClickEvent) => dateOf(e.clickedAt))))
             && r.byCountry == MostCommon(Count(Map(events, (e: ClickEvent) => Or(e.country, "unknown"))))
             && r.byDevice == MostCommon(Count(Map(events, (e: ClickEvent) => Or(e.device, "unknown"))))
             && r.topReferrers == Top(MostCommon(Count(Map(events, (e: ClickEvent) => Referrer(e.referrer, hostOf)))))
    ensures Accounts(r, table, code, from, to, dateOf, hostOf)
  {
    DateTable(r.byDate, table, code, from, to, dateOf);
    CountryTable(table, code, from, to);
    DeviceTable(table, code, from, to);
    ReferrerTable(table, code, from, to, hostOf);
  }

  method GetAnalytics(table: seq<ClickEvent>, code: string, from: Option<int>, to: Option<int>,
                      dateOf: int -> string, hostOf: string -> Option<string>)
    returns (r: Summary)
    ensures AddsUp(r) && InOrder(r)
    ensures Accounts(r, table, code, from, to, dateOf, hostOf)
    ensures var events := Selected(table, code, from, to);
            && r.totalClicks == |events|
            && r.uniqueClicks == |set e | e in events && e.ipHash.Some? && e.ipHash.value != "" :: e.ipHash.value|
            && multiset(r.byDate) == multiset(Count(Map(events, (e: ClickEvent) => dateOf(e.clickedAt))))
            && r.byCountry == MostCommon(Count(Map(events, (e: ClickEvent) => Or(e.country, "unknown"))))
            && r.byDevice == MostCommon(Count(Map(events, (e: ClickEvent) => Or(e.device, "unknown"))))
            && r.topReferrers == Top(MostCommon(Count(Map(events, (e: ClickEvent) => Referrer(e.referrer, hostOf)))))
  {
    var events := Selected(table, code, from, to);
    var unique := set e | e in events && e.ipHash.Some? && e.ipHash.value != "" :: e.ipHash.value;
    ghost var dates := Map(events, (e: ClickEvent) => dateOf(e.clickedAt));
    var dateCounter: Counter := [];
    for i := 0 to |events|
      invariant dateCounter == Count(dates[..i])
    {
      dateCounter := Bump(dateCounter, dateOf(events[i].clickedAt));
      assert dates[..i + 1][..i] == dates[..i];
    }
    assert dates[..|events|] == dates;
    var countries := Map(events, (e: ClickEvent) => Or(e.country, "unknown"));
    var devices := Map(events, (e: ClickEvent) => Or(e.device, "unknown"));
    var referrers := Map(events, (e: ClickEvent) => Referrer(e.referrer, hostOf));
    CountIsHistogram(dates, "");
    ByKeyIsAscending(dateCounter);
    CountIsHistogram(countries, "");
    MostCommonIsStable(Count(countries), 0);
    CountIsHistogram(devices, "");
    MostCommonIsStable(Count(devices), 0);
    r := Summary(|events|, |unique|, ByKey(dateCounter), MostCommon(Count(countries)),
                 MostCommon(Count(devices)), Top(MostCommon(Count(referrers))));
    SortedIsInOrder(r);
    SummaryAccounts(r, table, code, from, to, dateOf, hostOf);
  }
}
