/**
 The superstep executor of a compiled state graph, for any node type.

 A superstep runs every node of `group`.  The nodes of one superstep finish in
 any order; each reads the artifacts as they were when the superstep began, and
 what it returns is held back until the last one finishes.  Then all updates are
 reduced into the state and the edges decide the next superstep.
 */
module BarrierGraph {
  import opened Wrappers

  /** An edge fires once all its sources have signalled it.  A conditional edge
      (`choice` is `Some(b)`) is signalled only by a source whose routing
      function answers `b`. */
  datatype Edge<N(==)> = Edge(sources: set<N>, choice: Option<bool>, target: N)

  datatype Graph<N(==)> = Graph(entry: N, edges: set<Edge<N>>)

  /** What one finished node hands over: its artifact and its routing answer. */
  datatype Write<N, A> = Write(node: N, artifact: A, branch: bool)

  datatype State<N(==), A> = State(
    group: set<N>,                   // nodes of this superstep still to finish
    finished: seq<Write<N, A>>,      // held-back updates, in finishing order
    barriers: map<Edge<N>, set<N>>,  // sources that have signalled each edge
    executed: seq<N>,                // nodes whose updates have been reduced
    taken: map<N, bool>,             // routing answers of the executed nodes
    artifacts: map<N, A>)            // the reduced artifact dictionary

  // ---- execution -------------------------------------------------------

  function Start<N(==), A>(g: Graph<N>): State<N, A> {
    State({g.entry}, [], map[], [], map[], map[])
  }

  function Names<N, A>(ws: seq<Write<N, A>>): seq<N> {
    seq(|ws|, i requires 0 <= i < |ws| => ws[i].node)
  }

  /** Reducing one node's update.  The node returns its stale `snapshot` plus its
      own key, and the reducer lets the update win on every key it holds. */
  function Merge<N(==), A>(current: map<N, A>, snapshot: map<N, A>, w: Write<N, A>): map<N, A> {
    current + snapshot[w.node := w.artifact]
  }

  function Reduce<N(==), A>(snapshot: map<N, A>, ws: seq<Write<N, A>>): map<N, A> {
    if ws == [] then snapshot
    else Merge(Reduce(snapshot, ws[..|ws| - 1]), snapshot, ws[|ws| - 1])
  }

  predicate Answers<N(==)>(e: Edge<N>, branch: bool) {
    e.choice.Some? ==> e.choice.value == branch
  }

  function Arrivals<N(==), A>(e: Edge<N>, ws: seq<Write<N, A>>): set<N> {
    set i | 0 <= i < |ws| && ws[i].node in e.sources && Answers(e, ws[i].branch) :: ws[i].node
  }

  function Seen<N(==), A>(s: State<N, A>, e: Edge<N>): set<N> {
    if e in s.barriers then s.barriers[e] else {}
  }

  function Signalled<N(==), A>(s: State<N, A>, e: Edge<N>): set<N> {
    Seen(s, e) + Arrivals(e, s.finished)
  }

  function Routes<N(==), A>(ws: seq<Write<N, A>>): map<N, bool> {
    if ws == [] then map[] else Routes(ws[..|ws| - 1])[ws[|ws| - 1].node := ws[|ws| - 1].branch]
  }

  /** The end of a superstep: a barrier that has fired starts again from empty. */
  function Commit<N(==), A>(g: Graph<N>, s: State<N, A>): State<N, A> {
    State(
      set e | e in g.edges && Signalled(s, e) == e.sources :: e.target,
      [],
      map e | e in g.edges :: if Signalled(s, e) == e.sources then {} else Signalled(s, e),
      s.executed + Names(s.finished),
      s.taken + Routes(s.finished),
      Reduce(s.artifacts, s.finished))
  }

  /** One node of the running superstep finishes. */
  function Finish<N(==), A>(g: Graph<N>, s: State<N, A>, w: Write<N, A>): State<N, A>
    requires w.node in s.group
  {
    var s' := s.(group := s.group - {w.node}, finished := s.finished + [w]);
    if s'.group == {} then Commit(g, s') else s'
  }

  predicate Feasible<N(==), A>(g: Graph<N>, s: State<N, A>, events: seq<Write<N, A>>)
    decreases |events|
  {
    events == [] ||
    (events[0].node in s.group && Feasible(g, Finish(g, s, events[0]), events[1..]))
  }

  function Execute<N(==), A>(g: Graph<N>, s: State<N, A>, events: seq<Write<N, A>>): State<N, A>
    requires Feasible(g, s, events)
    decreases |events|
  {
    if events == [] then s else Execute(g, Finish(g, s, events[0]), events[1..])
  }

  // ---- the static check ------------------------------------------------

  /** Firing `e` implies that branch node `b` answered `v`. */
  ghost predicate Implies<N(!new)>(e: Edge<N>, context: N -> map<N, bool>, b: N, v: bool) {
    || (e.choice == Some(v) && b in e.sources)
    || (exists n :: n in e.sources && b in context(n) && context(n)[b] == v)
  }

  /** `context(n)`: routing answers known to have been given whenever `n` runs.
      `before(n)`: nodes known to have been executed whenever `n` runs.
      Two edges into one node must rest on opposite answers of some branch node. */
  ghost predicate Checked<N(!new)>(g: Graph<N>, context: N -> map<N, bool>, before: N -> set<N>) {
    && context(g.entry) == map[] && before(g.entry) == {}
    && (forall e :: e in g.edges ==> e.sources != {} && e.target != g.entry)
    && (forall e, b :: e in g.edges && b in context(e.target) ==>
          Implies(e, context, b, context(e.target)[b]))
    && (forall e, d :: e in g.edges && d in before(e.target) ==>
          exists n :: n in e.sources && (d == n || d in before(n)))
    && (forall e, f :: e in g.edges && f in g.edges && e != f && e.target == f.target ==>
          exists b, v :: Implies(e, context, b, v) && Implies(f, context, b, !v))
  }

  // ---- the invariant ---------------------------------------------------

  ghost predicate Distinct<T>(s: seq<T>) {
    forall i, j :: 0 <= i < j < |s| ==> s[i] != s[j]
  }

  ghost function Started<N, A>(s: State<N, A>): seq<N> {
    s.executed + Names(s.finished)
  }

  /** The routing answers once the running superstep is committed. */
  ghost function Taken<N, A>(s: State<N, A>): map<N, bool> {
    s.taken + Routes(s.finished)
  }

  /** All sources of `e` are in `prior` and none of them routed elsewhere. */
  ghost predicate Enabled<N>(e: Edge<N>, prior: seq<N>, taken: map<N, bool>) {
    forall n :: n in e.sources ==> n in prior && n in taken && Answers(e, taken[n])
  }

  ghost predicate Agrees<N>(facts: map<N, bool>, taken: map<N, bool>) {
    forall b :: b in facts ==> b in taken && taken[b] == facts[b]
  }

  /** Why `n` may run after `prior`: it is the entry, or one of its edges is enabled. */
  ghost predicate Justified<N(!new)>(g: Graph<N>, context: N -> map<N, bool>, before: N -> set<N>,
                                     n: N, prior: seq<N>, taken: map<N, bool>) {
    && (n == g.entry || exists e :: e in g.edges && e.target == n && Enabled(e, prior, taken))
    && Agrees(context(n), taken)
    && (forall d :: d in before(n) ==> d in prior)
  }

  ghost function Answered<N>(e: Edge<N>, prior: seq<N>, taken: map<N, bool>): set<N> {
    set n | n in e.sources && n in prior && n in taken && Answers(e, taken[n])
  }

  ghost predicate AllJustified<N(!new)>(g: Graph<N>, context: N -> map<N, bool>, before: N -> set<N>,
                                        executed: seq<N>, taken: map<N, bool>) {
    forall i {:trigger executed[..i]} :: 0 <= i < |executed| ==>
      Justified(g, context, before, executed[i], executed[..i], taken)
  }

  /** Everything the invariant says except that a superstep never stays complete. */
  ghost predicate Core<N(!new), A>(g: Graph<N>, context: N -> map<N, bool>, before: N -> set<N>, s: State<N, A>) {
    && Distinct(Started(s))
    && (forall n :: n in s.group ==> n !in Started(s))
    && (forall n :: n in s.taken <==> n in s.executed)
    && (forall n :: n in s.artifacts <==> n in s.executed)
    && AllJustified(g, context, before, s.executed, s.taken)
    && (forall n :: n in s.group || n in Names(s.finished) ==>
          Justified(g, context, before, n, s.executed, s.taken))
    && (forall e :: e in g.edges ==>
          Seen(s, e) == if Enabled(e, s.executed, s.taken) then {}
                        else Answered(e, s.executed, s.taken))
    && (forall e :: e in g.edges && Enabled(e, s.executed, s.taken) ==>
          e.target in s.group || e.target in Started(s))
    && (g.entry in s.group || g.entry in Started(s))
  }

  ghost predicate Inv<N(!new), A>(g: Graph<N>, context: N -> map<N, bool>, before: N -> set<N>, s: State<N, A>) {
    Core(g, context, before, s) && (s.finished != [] ==> s.group != {})
  }

  // ---- reducing a superstep's updates ----------------------------------

  /** What the reducer must deliver: old artifacts kept, every update present. */
  ghost predicate NothingLost<N(!new), A>(was: map<N, A>, ws: seq<Write<N, A>>, now: map<N, A>) {
    && (forall n :: n in now <==> n in was || n in Names(ws))
    && (forall n :: n in was && n !in Names(ws) ==> now[n] == was[n])
    && (forall i :: 0 <= i < |ws| ==> ws[i].node in now && now[ws[i].node] == ws[i].artifact)
  }

  lemma NamesOfPrefix<N, A>(ws: seq<Write<N, A>>)
    requires ws != []
    ensures Names(ws) == Names(ws[..|ws| - 1]) + [ws[|ws| - 1].node]
  {
  }

  /** Updates of distinct nodes that have no artifact yet never overwrite each
      other, although each of them carries the same stale snapshot. */
  lemma {:induction false} NoLostUpdate<N(!new), A>(snapshot: map<N, A>, ws: seq<Write<N, A>>)
    requires Distinct(Names(ws))
    requires forall n :: n in Names(ws) ==> n !in snapshot
    ensures NothingLost(snapshot, ws, Reduce(snapshot, ws))
  {
    if ws != [] {
      var init, last := ws[..|ws| - 1], ws[|ws| - 1];
      NamesOfPrefix(ws);
      assert forall i :: 0 <= i < |init| ==> Names(ws)[i] == Names(init)[i];
      NoLostUpdate(snapshot, init);
      forall i | 0 <= i < |init|
        ensures ws[i].node != last.node && ws[i].node !in snapshot && ws[i] == init[i]
      {
        assert Names(ws)[i] != Names(ws)[|ws| - 1] && Names(ws)[i] in Names(ws);
      }
    }
  }

  lemma {:induction false} ReducedElsewhere<N(!new), A>(snapshot: map<N, A>, ws: seq<Write<N, A>>)
    ensures forall n :: n in Reduce(snapshot, ws) <==> n in snapshot || n in Names(ws)
    ensures forall n :: n in snapshot && n !in Names(ws) ==> Reduce(snapshot, ws)[n] == snapshot[n]
  {
    if ws != [] {
      NamesOfPrefix(ws);
      ReducedElsewhere(snapshot, ws[..|ws| - 1]);
    }
  }

  /** Every update but the last is undone by the snapshots of later ones, where they
      hold its key. */
  lemma {:induction false} ReducedUpdate<N(!new), A>(snapshot: map<N, A>, ws: seq<Write<N, A>>, i: nat)
    requires Distinct(Names(ws)) && i < |ws|
    ensures ws[i].node in Reduce(snapshot, ws)
    ensures Reduce(snapshot, ws)[ws[i].node] ==
              if i < |ws| - 1 && ws[i].node in snapshot then snapshot[ws[i].node] else ws[i].artifact
  {
    if i < |ws| - 1 {
      var init := ws[..|ws| - 1];
      assert Names(ws)[i] != Names(ws)[|ws| - 1];
      assert forall j :: 0 <= j < |init| ==> Names(init)[j] == Names(ws)[j];
      ReducedUpdate(snapshot, init, i);
    }
  }

  /** Exactly when the updates of one superstep all survive their stale snapshots:
      none but the last may have had a different artifact before. */
  lemma StaleSnapshotOverwrites<N(!new), A>(snapshot: map<N, A>, ws: seq<Write<N, A>>)
    requires Distinct(Names(ws))
    ensures NothingLost(snapshot, ws, Reduce(snapshot, ws)) <==>
              forall i :: 0 <= i < |ws| - 1 && ws[i].node in snapshot ==> snapshot[ws[i].node] == ws[i].artifact
  {
    ReducedElsewhere(snapshot, ws);
    forall i | 0 <= i < |ws|
      ensures ws[i].node in Reduce(snapshot, ws)
      ensures Reduce(snapshot, ws)[ws[i].node] ==
                if i < |ws| - 1 && ws[i].node in snapshot then snapshot[ws[i].node] else ws[i].artifact
    {
      ReducedUpdate(snapshot, ws, i);
    }
  }

  lemma {:induction false} RoutesOf<N(!new), A>(ws: seq<Write<N, A>>)
    requires Distinct(Names(ws))
    ensures forall n :: n in Routes(ws) <==> n in Names(ws)
    ensures forall i :: 0 <= i < |ws| ==> ws[i].node in Routes(ws) && Routes(ws)[ws[i].node] == ws[i].branch
  {
    if ws != [] {
      var init := ws[..|ws| - 1];
      NamesOfPrefix(ws);
      assert forall i :: 0 <= i < |init| ==> Names(ws)[i] == Names(init)[i];
      RoutesOf(init);
      forall i | 0 <= i < |init|
        ensures ws[i].node != ws[|ws| - 1].node && ws[i] == init[i]
      {
        assert Names(ws)[i] != Names(ws)[|ws| - 1];
      }
    }
  }

  lemma {:induction false} DistinctCounts<T>(s: seq<T>)
    ensures Distinct(s) <==> forall x :: x in multiset(s) ==> multiset(s)[x] == 1
  {
    if s != [] {
      var init, last := s[..|s| - 1], s[|s| - 1];
      assert s == init + [last];
      DistinctCounts(init);
      if Distinct(s) {
        assert forall i :: 0 <= i < |init| ==> init[i] == s[i];
        assert last !in init;
      } else {
        var i, j :| 0 <= i < j < |s| && s[i] == s[j];
        if j == |init| {
          assert init[i] == last && last in multiset(init);
          assert multiset(s)[last] >= 2;
        } else {
          assert init[i] == init[j];
          var x :| x in multiset(init) && multiset(init)[x] != 1;
          assert multiset(s)[x] >= 2;
        }
      }
    }
  }

  lemma WithoutOne<T>(s: seq<T>, j: nat)
    requires j < |s|
    ensures multiset(s) == multiset(s[..j] + s[j + 1..]) + multiset{s[j]}
    ensures multiset(s[..j] + s[j + 1..]) == multiset(s) - multiset{s[j]}
  {
    assert s == s[..j] + ([s[j]] + s[j + 1..]);
  }

  lemma NamesWithout<N, A>(ws: seq<Write<N, A>>, j: nat)
    requires j < |ws|
    ensures multiset(Names(ws)) == multiset(Names(ws[..j] + ws[j + 1..])) + multiset{ws[j].node}
  {
    WithoutOne(Names(ws), j);
    assert Names(ws)[..j] + Names(ws)[j + 1..] == Names(ws[..j] + ws[j + 1..]);
  }

  lemma TakeOut<N, A>(us: seq<Write<N, A>>, w: Write<N, A>) returns (rest: seq<Write<N, A>>)
    requires w in us
    ensures |rest| + 1 == |us| && multiset(rest) == multiset(us) - multiset{w}
    ensures multiset(Names(us)) == multiset(Names(rest)) + multiset{w.node}
  {
    var j :| 0 <= j < |us| && us[j] == w;
    rest := us[..j] + us[j + 1..];
    WithoutOne(us, j);
    NamesWithout(us, j);
  }

  lemma {:induction false} NamesReordered<N, A>(ws: seq<Write<N, A>>, us: seq<Write<N, A>>)
    requires multiset(ws) == multiset(us)
    ensures multiset(Names(ws)) == multiset(Names(us))
    decreases |ws|
  {
    assert |multiset(ws)| == |ws| && |multiset(us)| == |us|;
    if ws != [] {
      var w := ws[0];
      assert w in multiset(us);
      var restW := TakeOut(ws, w);
      var restU := TakeOut(us, w);
      NamesReordered(restW, restU);
    } else {
      assert us == [];
    }
  }

  lemma SameMembers<T>(s: seq<T>, t: seq<T>)
    requires multiset(s) == multiset(t)
    ensures forall x :: x in s ==> x in t
  {
    forall x | x in s ensures x in t { assert x in multiset(t); }
  }

  lemma SameArrivals<N(!new), A>(e: Edge<N>, ws: seq<Write<N, A>>, us: seq<Write<N, A>>)
    requires multiset(ws) == multiset(us)
    ensures Arrivals(e, ws) <= Arrivals(e, us)
  {
    SameMembers(ws, us);
    forall n | n in Arrivals(e, ws) ensures n in Arrivals(e, us) {
      var i :| 0 <= i < |ws| && ws[i].node == n && n in e.sources && Answers(e, ws[i].branch);
      assert ws[i] in us;
      var j :| 0 <= j < |us| && us[j] == ws[i];
    }
  }

  lemma ReducedAt<N(!new), A>(snapshot: map<N, A>, ws: seq<Write<N, A>>, n: N) returns (w: Write<N, A>)
    requires Distinct(Names(ws)) && n in Names(ws)
    requires forall n :: n in Names(ws) ==> n !in snapshot
    ensures w in ws && w.node == n
    ensures n in Reduce(snapshot, ws) && Reduce(snapshot, ws)[n] == w.artifact
    ensures n in Routes(ws) && Routes(ws)[n] == w.branch
    ensures forall u :: u in ws && u.node == n ==> u == w
  {
    NoLostUpdate(snapshot, ws);
    RoutesOf(ws);
    var i :| 0 <= i < |ws| && Names(ws)[i] == n;
    w := ws[i];
    forall u | u in ws && u.node == n ensures u == w {
      var k :| 0 <= k < |ws| && ws[k] == u;
      assert Names(ws)[k] == Names(ws)[i];
    }
  }

  lemma ReducedKeys<N(!new), A>(snapshot: map<N, A>, ws: seq<Write<N, A>>)
    requires Distinct(Names(ws))
    requires forall n :: n in Names(ws) ==> n !in snapshot
    ensures Reduce(snapshot, ws).Keys == snapshot.Keys + (set n | n in Names(ws))
    ensures Routes(ws).Keys == set n | n in Names(ws)
    ensures forall n :: n in snapshot ==> Reduce(snapshot, ws)[n] == snapshot[n]
  {
    NoLostUpdate(snapshot, ws);
    RoutesOf(ws);
  }

  lemma SameAt<N(!new), A>(snapshot: map<N, A>, ws: seq<Write<N, A>>, us: seq<Write<N, A>>, n: N)
    requires multiset(ws) == multiset(us)
    requires Distinct(Names(ws)) && Distinct(Names(us)) && n in Names(ws) && n in Names(us)
    requires forall n :: n in Names(ws) ==> n !in snapshot
    requires forall n :: n in Names(us) ==> n !in snapshot
    ensures n in Reduce(snapshot, ws) && n in Reduce(snapshot, us)
    ensures Reduce(snapshot, ws)[n] == Reduce(snapshot, us)[n]
    ensures n in Routes(ws) && n in Routes(us) && Routes(ws)[n] == Routes(us)[n]
  {
    var w := ReducedAt(snapshot, ws, n);
    var u := ReducedAt(snapshot, us, n);
    assert w in multiset(us);
  }

  lemma SameMaps<K, V>(a: map<K, V>, b: map<K, V>)
    requires a.Keys == b.Keys && forall k :: k in a.Keys ==> a[k] == b[k]
    ensures a == b
  {
  }

  lemma SameReduction<N(!new), A>(snapshot: map<N, A>, ws: seq<Write<N, A>>, us: seq<Write<N, A>>)
    requires multiset(ws) == multiset(us)
    requires Distinct(Names(ws)) && Distinct(Names(us))
    requires forall n :: n in Names(ws) ==> n !in snapshot
    requires forall n :: n in Names(us) <==> n in Names(ws)
    ensures Reduce(snapshot, ws) == Reduce(snapshot, us)
    ensures Routes(ws) == Routes(us)
  {
    forall n | n in Names(ws)
      ensures n in Reduce(snapshot, ws) && n in Reduce(snapshot, us) && Reduce(snapshot, ws)[n] == Reduce(snapshot, us)[n]
      ensures n in Routes(ws) && n in Routes(us) && Routes(ws)[n] == Routes(us)[n]
    {
      SameAt(snapshot, ws, us, n);
    }
    SameKeys(snapshot, ws, us);
    ReducedKeys(snapshot, ws);
    SameMaps(Reduce(snapshot, ws), Reduce(snapshot, us));
    SameMaps(Routes(ws), Routes(us));
  }

  lemma SameNames<N>(a: seq<N>, b: seq<N>)
    requires forall n :: n in a <==> n in b
    ensures (set n | n in a) == (set n | n in b)
  {
  }

  lemma SameKeys<N(!new), A>(snapshot: map<N, A>, ws: seq<Write<N, A>>, us: seq<Write<N, A>>)
    requires Distinct(Names(ws)) && Distinct(Names(us))
    requires forall n :: n in Names(ws) ==> n !in snapshot
    requires forall n :: n in Names(us) <==> n in Names(ws)
    ensures Reduce(snapshot, ws).Keys == Reduce(snapshot, us).Keys
    ensures Routes(ws).Keys == Routes(us).Keys
    ensures forall n :: n in snapshot ==> Reduce(snapshot, ws)[n] == snapshot[n] && Reduce(snapshot, us)[n] == snapshot[n]
  {
    SameNames(Names(ws), Names(us));
    ReducedKeys(snapshot, ws);
    ReducedKeys(snapshot, us);
  }

  /** Any two finishing orders of one superstep lead to the same next superstep,
      the same barriers, the same routing answers and the same artifacts. */
  lemma FinishingOrderIsIrrelevant<N(!new), A>(g: Graph<N>, s: State<N, A>, reordered: seq<Write<N, A>>)
    requires Distinct(Started(s))
    requires forall n :: n in s.artifacts <==> n in s.executed
    requires multiset(reordered) == multiset(s.finished)
    ensures var c, d := Commit(g, s), Commit(g, s.(finished := reordered));
            && c.group == d.group && c.barriers == d.barriers
            && c.taken == d.taken && c.artifacts == d.artifacts
            && multiset(c.executed) == multiset(d.executed)
            && NothingLost(s.artifacts, reordered, d.artifacts)
  {
    ReorderedStart(s, reordered);
    SameReduction(s.artifacts, s.finished, reordered);
    NoLostUpdate(s.artifacts, reordered);
    forall e: Edge<N> ensures Arrivals(e, s.finished) == Arrivals(e, reordered) {
      SameArrivals(e, s.finished, reordered);
      SameArrivals(e, reordered, s.finished);
    }
    SameCommit(g, s, reordered);
  }

  lemma ReorderedStart<N(!new), A>(s: State<N, A>, reordered: seq<Write<N, A>>)
    requires Distinct(Started(s))
    requires multiset(reordered) == multiset(s.finished)
    ensures Distinct(Names(s.finished)) && Distinct(Names(reordered))
    ensures multiset(Names(s.finished)) == multiset(Names(reordered))
    ensures forall n :: n in Names(s.finished) ==> n !in s.executed
    ensures forall n :: n in Names(reordered) <==> n in Names(s.finished)
  {
    var t := s.(finished := reordered);
    NamesReordered(s.finished, reordered);
    assert multiset(Started(s)) == multiset(Started(t));
    DistinctCounts(Started(s));
    DistinctCounts(Started(t));
    FinishedIsNew(s);
    FinishedIsNew(t);
    SameMembers(Names(s.finished), Names(reordered));
    SameMembers(Names(reordered), Names(s.finished));
  }

  lemma SameCommit<N(!new), A>(g: Graph<N>, s: State<N, A>, reordered: seq<Write<N, A>>)
    requires multiset(Names(s.finished)) == multiset(Names(reordered))
    requires Reduce(s.artifacts, s.finished) == Reduce(s.artifacts, reordered)
    requires Routes(s.finished) == Routes(reordered)
    requires forall e :: e in g.edges ==> Arrivals(e, s.finished) == Arrivals(e, reordered)
    ensures var c, d := Commit(g, s), Commit(g, s.(finished := reordered));
            && c.group == d.group && c.barriers == d.barriers
            && c.taken == d.taken && c.artifacts == d.artifacts
            && multiset(c.executed) == multiset(d.executed)
  {
    var t := s.(finished := reordered);
    forall e | e in g.edges ensures Signalled(s, e) == Signalled(t, e) {}
    SameNext(g, s, t);
  }

  lemma SameNext<N(!new), A>(g: Graph<N>, s: State<N, A>, t: State<N, A>)
    requires forall e: Edge<N> :: e in g.edges ==> Signalled(s, e) == Signalled(t, e)
    ensures Commit(g, s).group == Commit(g, t).group && Commit(g, s).barriers == Commit(g, t).barriers
  {
    forall n ensures n in Commit(g, s).group <==> n in Commit(g, t).group {
      if n in Commit(g, s).group {
        var e :| e in g.edges && Signalled(s, e) == e.sources && e.target == n;
        assert Signalled(t, e) == e.sources;
      }
      if n in Commit(g, t).group {
        var e :| e in g.edges && Signalled(t, e) == e.sources && e.target == n;
        assert Signalled(s, e) == e.sources;
      }
    }
    SameMaps(Commit(g, s).barriers, Commit(g, t).barriers);
  }

  lemma FinishedIsNew<N(!new), A>(s: State<N, A>)
    requires Distinct(Started(s))
    ensures Distinct(Names(s.finished)) && Distinct(s.executed)
    ensures forall n :: n in Names(s.finished) ==> n !in s.executed
  {
    var k := |s.executed|;
    assert forall i :: 0 <= i < k ==> Started(s)[i] == s.executed[i];
    assert forall i :: 0 <= i < |s.finished| ==> Started(s)[k + i] == Names(s.finished)[i];
    forall i, j | 0 <= i < j < |s.finished| ensures Names(s.finished)[i] != Names(s.finished)[j] {
      assert Started(s)[k + i] != Started(s)[k + j];
    }
    forall n | n in Names(s.finished) ensures n !in s.executed {
      var j :| 0 <= j < |s.finished| && Names(s.finished)[j] == n;
      assert forall i :: 0 <= i < k ==> Started(s)[i] != Started(s)[k + j];
    }
  }

  // ---- every reachable state satisfies the invariant --------------------

  lemma StartInv<N(!new), A>(g: Graph<N>, context: N -> map<N, bool>, before: N -> set<N>, s: State<N, A>)
    requires Checked(g, context, before)
    requires s == Start(g)
    ensures Inv(g, context, before, s)
  {
    assert Started(s) == [];
    forall e | e in g.edges ensures !Enabled(e, s.executed, s.taken) && Answered(e, s.executed, s.taken) == {} {
      var n :| n in e.sources;
      assert n !in s.executed;
    }
    assert Justified(g, context, before, g.entry, s.executed, s.taken);
  }

  /** An enabled edge fixes the branch answers it was checked to rest on. */
  lemma EnabledImplies<N(!new)>(g: Graph<N>, context: N -> map<N, bool>, before: N -> set<N>,
                                executed: seq<N>, taken: map<N, bool>, e: Edge<N>, b: N, v: bool)
    requires AllJustified(g, context, before, executed, taken)
    requires Enabled(e, executed, taken) && Implies(e, context, b, v)
    ensures b in taken && taken[b] == v
  {
    if !(e.choice == Some(v) && b in e.sources) {
      var n :| n in e.sources && b in context(n) && context(n)[b] == v;
      var i :| 0 <= i < |executed| && executed[i] == n;
      assert Justified(g, context, before, executed[i], executed[..i], taken);
    }
  }

  /** The target of an enabled edge may run. */
  lemma EnabledJustifies<N(!new)>(g: Graph<N>, context: N -> map<N, bool>, before: N -> set<N>,
                                  executed: seq<N>, taken: map<N, bool>, e: Edge<N>)
    requires Checked(g, context, before) && e in g.edges
    requires AllJustified(g, context, before, executed, taken)
    requires Enabled(e, executed, taken)
    ensures Justified(g, context, before, e.target, executed, taken)
  {
    forall b | b in context(e.target) ensures b in taken && taken[b] == context(e.target)[b] {
      EnabledImplies(g, context, before, executed, taken, e, b, context(e.target)[b]);
    }
    forall d | d in before(e.target) ensures d in executed {
      var n :| n in e.sources && (d == n || d in before(n));
      if d != n {
        var i :| 0 <= i < |executed| && executed[i] == n;
        assert Justified(g, context, before, executed[i], executed[..i], taken);
      }
    }
  }

  /** Two different edges into one node are never both enabled. */
  lemma OneEdgeEnabled<N(!new)>(g: Graph<N>, context: N -> map<N, bool>, before: N -> set<N>,
                                executed: seq<N>, taken: map<N, bool>, e: Edge<N>, f: Edge<N>)
    requires Checked(g, context, before) && e in g.edges && f in g.edges
    requires AllJustified(g, context, before, executed, taken)
    requires Enabled(e, executed, taken) && Enabled(f, executed, taken) && e.target == f.target
    ensures e == f
  {
    if e != f {
      var b, v :| Implies(e, context, b, v) && Implies(f, context, b, !v);
      EnabledImplies(g, context, before, executed, taken, e, b, v);
      EnabledImplies(g, context, before, executed, taken, f, b, !v);
    }
  }

  lemma JustifiedLater<N(!new)>(g: Graph<N>, context: N -> map<N, bool>, before: N -> set<N>, n: N,
                                prior: seq<N>, taken: map<N, bool>, prior': seq<N>, taken': map<N, bool>)
    requires Justified(g, context, before, n, prior, taken)
    requires forall m :: m in prior ==> m in prior'
    requires forall m :: m in taken ==> m in taken' && taken'[m] == taken[m]
    ensures Justified(g, context, before, n, prior', taken')
  {
    if n != g.entry {
      var e :| e in g.edges && e.target == n && Enabled(e, prior, taken);
      assert Enabled(e, prior', taken');
    }
  }

  /** What a commit does to the log and to the routing answers. */
  lemma CommitLog<N(!new), A>(s: State<N, A>)
    requires Distinct(Started(s))
    requires forall n :: n in s.taken <==> n in s.executed
    ensures forall n :: n in Taken(s) <==> n in Started(s)
    ensures forall n :: n in s.taken ==> n in Taken(s) && Taken(s)[n] == s.taken[n]
  {
    FinishedIsNew(s);
    RoutesOf(s.finished);
  }

  lemma CommitJustifies<N(!new), A>(g: Graph<N>, context: N -> map<N, bool>, before: N -> set<N>, s: State<N, A>)
    requires Core(g, context, before, s)
    ensures AllJustified(g, context, before, Started(s), Taken(s))
  {
    CommitLog(s);
    forall i | 0 <= i < |Started(s)|
      ensures Justified(g, context, before, Started(s)[i], Started(s)[..i], Taken(s))
    {
      var k := |s.executed|;
      if i < k {
        assert Started(s)[..i] == s.executed[..i];
        JustifiedLater(g, context, before, s.executed[i], s.executed[..i], s.taken, s.executed[..i], Taken(s));
      } else {
        assert Started(s)[i] == Names(s.finished)[i - k];
        assert forall m :: 0 <= m < k ==> s.executed[m] == Started(s)[..i][m];
        JustifiedLater(g, context, before, Started(s)[i], s.executed, s.taken, Started(s)[..i], Taken(s));
      }
    }
  }

  /** The sources that have answered an edge after a superstep are those before
      it and those that arrived in it. */
  lemma AnswersGrow<N(!new), A>(e: Edge<N>, executed: seq<N>, taken: map<N, bool>, ws: seq<Write<N, A>>)
    requires Distinct(Names(ws))
    requires forall n :: n in Names(ws) ==> n !in executed
    requires forall n :: n in taken <==> n in executed
    ensures Answered(e, executed + Names(ws), taken + Routes(ws)) == Answered(e, executed, taken) + Arrivals(e, ws)
    ensures Answered(e, executed, taken) !! Arrivals(e, ws)
  {
    RoutesOf(ws);
    forall n | n in Arrivals(e, ws)
      ensures n in Names(ws) && n in Answered(e, executed + Names(ws), taken + Routes(ws))
    {
      var i :| 0 <= i < |ws| && ws[i].node == n && n in e.sources && Answers(e, ws[i].branch);
      assert Names(ws)[i] == n;
    }
    forall n | n in Answered(e, executed + Names(ws), taken + Routes(ws)) && n !in executed
      ensures n in Arrivals(e, ws)
    {
      var i :| 0 <= i < |ws| && Names(ws)[i] == n;
      assert ws[i].node == n && Answers(e, ws[i].branch);
    }
  }

  lemma AnsweredIsEnabled<N(!new)>(e: Edge<N>, prior: seq<N>, taken: map<N, bool>)
    ensures Enabled(e, prior, taken) <==> Answered(e, prior, taken) == e.sources
  {
    if Answered(e, prior, taken) == e.sources {
      forall n | n in e.sources ensures n in prior && n in taken && Answers(e, taken[n]) {
        assert n in Answered(e, prior, taken);
      }
    }
  }

  /** An edge fires at a commit exactly when this superstep enabled it. */
  lemma CommitFires<N(!new), A>(s: State<N, A>, e: Edge<N>)
    requires Distinct(Started(s)) && forall n :: n in s.taken <==> n in s.executed
    requires e.sources != {}
    requires Seen(s, e) == if Enabled(e, s.executed, s.taken) then {} else Answered(e, s.executed, s.taken)
    ensures Signalled(s, e) == e.sources <==>
              Enabled(e, Started(s), Taken(s)) && !Enabled(e, s.executed, s.taken)
    ensures (if Signalled(s, e) == e.sources then {} else Signalled(s, e)) ==
            (if Enabled(e, Started(s), Taken(s)) then {} else Answered(e, Started(s), Taken(s)))
  {
    FinishedIsNew(s);
    AnswersGrow(e, s.executed, s.taken, s.finished);
    AnsweredIsEnabled(e, Started(s), Taken(s));
    AnsweredIsEnabled(e, s.executed, s.taken);
    assert Arrivals(e, s.finished) <= e.sources;
  }

  lemma StartedJustified<N(!new), A>(g: Graph<N>, context: N -> map<N, bool>, before: N -> set<N>, s: State<N, A>, n: N)
    requires Core(g, context, before, s) && n in Started(s)
    ensures Justified(g, context, before, n, s.executed, s.taken)
  {
    if n in s.executed {
      var i :| 0 <= i < |s.executed| && s.executed[i] == n;
      JustifiedLater(g, context, before, n, s.executed[..i], s.taken, s.executed, s.taken);
    }
  }

  /** No edge becomes enabled into a node that already had a reason to run. */
  lemma FiredTwice<N(!new)>(g: Graph<N>, context: N -> map<N, bool>, before: N -> set<N>, e: Edge<N>,
                            prior: seq<N>, was: map<N, bool>, executed: seq<N>, taken: map<N, bool>)
    requires Checked(g, context, before) && e in g.edges
    requires AllJustified(g, context, before, executed, taken)
    requires forall m :: m in prior ==> m in executed
    requires forall m :: m in was ==> m in taken && taken[m] == was[m]
    requires Enabled(e, executed, taken) && Justified(g, context, before, e.target, prior, was)
    ensures Enabled(e, prior, was)
  {
    var f :| f in g.edges && f.target == e.target && Enabled(f, prior, was);
    assert Enabled(f, executed, taken);
    OneEdgeEnabled(g, context, before, executed, taken, e, f);
  }

  /** A node whose edge fires at a commit has not run and may run now. */
  lemma CommitGroup<N(!new), A>(g: Graph<N>, context: N -> map<N, bool>, before: N -> set<N>, s: State<N, A>, e: Edge<N>)
    requires Checked(g, context, before) && Core(g, context, before, s) && e in g.edges
    requires Enabled(e, Started(s), Taken(s)) && !Enabled(e, s.executed, s.taken)
    ensures e.target !in Started(s)
    ensures Justified(g, context, before, e.target, Started(s), Taken(s))
  {
    CommitLog(s);
    CommitJustifies(g, context, before, s);
    EnabledJustifies(g, context, before, Started(s), Taken(s), e);
    if e.target in Started(s) {
      StartedJustified(g, context, before, s, e.target);
      FiredTwice(g, context, before, e, s.executed, s.taken, Started(s), Taken(s));
    }
  }

  lemma CommitInv<N(!new), A>(g: Graph<N>, context: N -> map<N, bool>, before: N -> set<N>, s: State<N, A>)
    requires Checked(g, context, before) && Core(g, context, before, s) && s.group == {}
    ensures Inv(g, context, before, Commit(g, s))
  {
    var c := Commit(g, s);
    CommitLog(s);
    CommitJustifies(g, context, before, s);
    FinishedIsNew(s);
    ReducedKeys(s.artifacts, s.finished);
    forall n | n in c.group
      ensures n !in c.executed && Justified(g, context, before, n, c.executed, c.taken)
    {
      var e :| e in g.edges && Signalled(s, e) == e.sources && e.target == n;
      CommitFires(s, e);
      CommitGroup(g, context, before, s, e);
    }
    forall e | e in g.edges
      ensures Seen(c, e) == if Enabled(e, c.executed, c.taken) then {} else Answered(e, c.executed, c.taken)
      ensures Enabled(e, c.executed, c.taken) ==> e.target in c.group || e.target in c.executed
    {
      CommitFires(s, e);
    }
    CoreOfCommitted(g, context, before, c);
  }

  lemma CoreOfCommitted<N(!new), A>(g: Graph<N>, context: N -> map<N, bool>, before: N -> set<N>, c: State<N, A>)
    requires c.finished == [] && Distinct(c.executed)
    requires forall n :: n in c.taken <==> n in c.executed
    requires forall n :: n in c.artifacts <==> n in c.executed
    requires AllJustified(g, context, before, c.executed, c.taken)
    requires forall n :: n in c.group ==> n !in c.executed && Justified(g, context, before, n, c.executed, c.taken)
    requires forall e :: e in g.edges ==>
               && Seen(c, e) == (if Enabled(e, c.executed, c.taken) then {} else Answered(e, c.executed, c.taken))
               && (Enabled(e, c.executed, c.taken) ==> e.target in c.group || e.target in c.executed)
    requires g.entry in c.executed
    ensures Inv(g, context, before, c)
  {
    assert Started(c) == c.executed;
  }

  lemma FinishCore<N(!new), A>(g: Graph<N>, context: N -> map<N, bool>, before: N -> set<N>,
                               s: State<N, A>, w: Write<N, A>, s': State<N, A>)
    requires Core(g, context, before, s) && w.node in s.group
    requires s' == s.(group := s.group - {w.node}, finished := s.finished + [w])
    ensures Core(g, context, before, s')
  {
    assert Names(s'.finished) == Names(s.finished) + [w.node];
    assert Started(s') == Started(s) + [w.node];
    forall n | n in s'.group || n in Names(s'.finished)
      ensures Justified(g, context, before, n, s'.executed, s'.taken)
    {
      assert n in s.group || n in Names(s.finished);
    }
    forall e | e in g.edges
      ensures Seen(s', e) == if Enabled(e, s'.executed, s'.taken) then {} else Answered(e, s'.executed, s'.taken)
    {
      assert Seen(s', e) == Seen(s, e);
    }
  }

  lemma FinishInv<N(!new), A>(g: Graph<N>, context: N -> map<N, bool>, before: N -> set<N>, s: State<N, A>, w: Write<N, A>)
    requires Checked(g, context, before) && Inv(g, context, before, s) && w.node in s.group
    ensures Inv(g, context, before, Finish(g, s, w))
  {
    var s' := s.(group := s.group - {w.node}, finished := s.finished + [w]);
    FinishCore(g, context, before, s, w, s');
    if s'.group == {} { CommitInv(g, context, before, s'); }
  }

  /** Every state reachable from the start, under any routing answers and any
      finishing order inside a superstep, satisfies the invariant. */
  lemma {:induction false} ExecuteInv<N(!new), A>(g: Graph<N>, context: N -> map<N, bool>, before: N -> set<N>,
                                                  s: State<N, A>, events: seq<Write<N, A>>)
    requires Checked(g, context, before) && Inv(g, context, before, s) && Feasible(g, s, events)
    ensures Inv(g, context, before, Execute(g, s, events))
    decreases |events|
  {
    if events != [] {
      FinishInv(g, context, before, s, events[0]);
      ExecuteInv(g, context, before, Finish(g, s, events[0]), events[1..]);
    }
  }

  ghost predicate Extends<K(!new), V>(m: map<K, V>, was: map<K, V>) {
    forall k :: k in was ==> k in m && m[k] == was[k]
  }

  /** From `s` to `t` exactly the nodes `names` finished, in that order, and no
      artifact or routing answer recorded before was changed. */
  ghost predicate Grew<N(!new), A>(s: State<N, A>, t: State<N, A>, names: seq<N>) {
    && Started(t) == Started(s) + names
    && Extends(t.artifacts, s.artifacts)
    && Extends(t.taken, s.taken)
  }

  lemma GrewTransitive<N(!new), A>(s: State<N, A>, t: State<N, A>, u: State<N, A>, first: seq<N>, rest: seq<N>)
    requires Grew(s, t, first) && Grew(t, u, rest)
    ensures Grew(s, u, first + rest)
  {
    assert Started(s) + (first + rest) == (Started(s) + first) + rest;
  }

  lemma GrewFurther<N(!new), A>(g: Graph<N>, s: State<N, A>, events: seq<Write<N, A>>)
    requires events != [] && Feasible(g, s, events)
    requires Grew(s, Finish(g, s, events[0]), [events[0].node])
    requires Grew(Finish(g, s, events[0]), Execute(g, s, events), Names(events[1..]))
    ensures Grew(s, Execute(g, s, events), Names(events))
  {
    GrewTransitive(s, Finish(g, s, events[0]), Execute(g, s, events), [events[0].node], Names(events[1..]));
    assert Names(events) == [events[0].node] + Names(events[1..]);
  }

  lemma FinishGrows<N(!new), A>(g: Graph<N>, context: N -> map<N, bool>, before: N -> set<N>, s: State<N, A>, w: Write<N, A>)
    requires Inv(g, context, before, s) && w.node in s.group
    ensures Grew(s, Finish(g, s, w), [w.node])
    ensures s.group == {w.node} && s.finished == [] ==>
              var t := Finish(g, s, w);
              w.node in t.artifacts && t.artifacts[w.node] == w.artifact && t.finished == []
  {
    var ws := s.finished + [w];
    var m := s.(group := s.group - {w.node}, finished := ws);
    assert Names(ws) == Names(s.finished) + [w.node];
    assert Started(m) == Started(s) + [w.node];
    if m.group == {} {
      FinishedIsNew(m);
      CommitLog(m);
      ReducedKeys(s.artifacts, ws);
      NoLostUpdate(s.artifacts, ws);
      assert ws[|ws| - 1] == w;
    }
  }

  lemma {:induction false} ExecuteGrows<N(!new), A>(g: Graph<N>, context: N -> map<N, bool>, before: N -> set<N>,
                                                    s: State<N, A>, events: seq<Write<N, A>>)
    requires Checked(g, context, before) && Inv(g, context, before, s) && Feasible(g, s, events)
    ensures Grew(s, Execute(g, s, events), Names(events))
    decreases |events|
  {
    if events == [] {
      assert Names(events) == [];
      assert Started(s) + [] == Started(s);
    } else {
      FinishGrows(g, context, before, s, events[0]);
      FinishInv(g, context, before, s, events[0]);
      ExecuteGrows(g, context, before, Finish(g, s, events[0]), events[1..]);
      GrewFurther(g, s, events);
    }
  }

  /** An update is held back, or its artifact and its answer are in the state. */
  ghost predicate Lasts<N(!new), A>(s: State<N, A>, w: Write<N, A>) {
    w in s.finished ||
    (w.node in s.artifacts && s.artifacts[w.node] == w.artifact && w.node in s.taken && s.taken[w.node] == w.branch)
  }

  lemma CommitLasts<N(!new), A>(g: Graph<N>, s: State<N, A>, w: Write<N, A>)
    requires Distinct(Names(s.finished)) && (forall n :: n in Names(s.finished) ==> n !in s.artifacts && n !in s.taken)
    requires Lasts(s, w)
    ensures Lasts(Commit(g, s), w)
  {
    NoLostUpdate(s.artifacts, s.finished);
    RoutesOf(s.finished);
    if w in s.finished {
      var i :| 0 <= i < |s.finished| && s.finished[i] == w;
      assert s.finished[i].node in Reduce(s.artifacts, s.finished);
    }
  }

  lemma FinishLasts<N(!new), A>(g: Graph<N>, context: N -> map<N, bool>, before: N -> set<N>, s: State<N, A>,
                                v: Write<N, A>, w: Write<N, A>)
    requires Inv(g, context, before, s) && v.node in s.group && (w == v || Lasts(s, w))
    ensures Lasts(Finish(g, s, v), w)
  {
    var s' := s.(group := s.group - {v.node}, finished := s.finished + [v]);
    FinishCore(g, context, before, s, v, s');
    FinishedIsNew(s');
    CommitLasts(g, s', w);
  }

  lemma AmongEvents<T>(events: seq<T>, w: T)
    requires events != []
    ensures w in events <==> w == events[0] || w in events[1..]
  {
    assert events == [events[0]] + events[1..];
  }

  /** In the end every node that was executed has left the artifact and the answer it
      returned. */
  lemma {:induction false} EventsLast<N(!new), A>(g: Graph<N>, context: N -> map<N, bool>, before: N -> set<N>,
                                                  s: State<N, A>, events: seq<Write<N, A>>, w: Write<N, A>)
    requires Checked(g, context, before) && Inv(g, context, before, s) && Feasible(g, s, events)
    requires w in events || Lasts(s, w)
    ensures Lasts(Execute(g, s, events), w)
    decreases |events|
  {
    if events != [] {
      AmongEvents(events, w);
      if w == events[0] || Lasts(s, w) { FinishLasts(g, context, before, s, events[0], w); }
      FinishInv(g, context, before, s, events[0]);
      EventsLast(g, context, before, Finish(g, s, events[0]), events[1..], w);
    }
  }

  lemma ExecuteOne<N(!new), A>(g: Graph<N>, s: State<N, A>, w: Write<N, A>)
    requires w.node in s.group
    ensures Feasible(g, s, [w]) && Execute(g, s, [w]) == Finish(g, s, w)
  {
    assert Feasible(g, Finish(g, s, w), []);
    assert [w][1..] == [];
  }

  lemma {:induction false} ExecuteAppend<N(!new), A>(g: Graph<N>, s: State<N, A>,
                                                     events: seq<Write<N, A>>, more: seq<Write<N, A>>)
    requires Feasible(g, s, events) && Feasible(g, Execute(g, s, events), more)
    ensures Feasible(g, s, events + more)
    ensures Execute(g, s, events + more) == Execute(g, Execute(g, s, events), more)
    decreases |events|
  {
    if events == [] {
      assert events + more == more;
    } else {
      ExecuteAppend(g, Finish(g, s, events[0]), events[1..], more);
      assert (events + more)[1..] == events[1..] + more;
    }
  }

  /** The executor theorem: each node runs at most once, only after some edge
      into it has had all its sources executed, and only after everything the
      check puts before it; and a run stops only when no edge is left to fire. */
  lemma ExecutorTheorem<N(!new), A>(g: Graph<N>, context: N -> map<N, bool>, before: N -> set<N>,
                                    events: seq<Write<N, A>>) returns (s: State<N, A>)
    requires Checked(g, context, before) && Feasible(g, Start(g), events)
    ensures s == Execute(g, Start(g), events)
    ensures Distinct(Started(s)) && forall n :: n in s.group ==> n !in Started(s)
    ensures forall i :: 0 <= i < |s.executed| ==>
              Justified(g, context, before, s.executed[i], s.executed[..i], s.taken)
    ensures forall n :: n in s.group || n in Names(s.finished) ==>
              Justified(g, context, before, n, s.executed, s.taken)
    ensures forall n :: n in s.artifacts <==> n in s.executed
    ensures s.group == {} ==> forall e :: e in g.edges && Enabled(e, s.executed, s.taken) ==> e.target in s.executed
  {
    StartInv(g, context, before, Start<N, A>(g));
    ExecuteInv(g, context, before, Start(g), events);
    s := Execute(g, Start(g), events);
  }
}
