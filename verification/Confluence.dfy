/**
 Whole invocations are confluent: when what a node returns depends only on the node and
 on the artifacts it is shown, all finishing orders of all supersteps lead to one end.
 */
module Confluence {
  import opened BarrierGraph

  /** What a node returns for the artifacts it is shown. */
  type Behaviour<!N, !A> = (N, map<N, A>) -> Write<N, A>

  ghost predicate OwnNames<N(!new), A(!new)>(f: Behaviour<N, A>) {
    forall n, m :: f(n, m).node == n
  }

  /** Equal but for the order in which nodes finished. */
  ghost predicate Same<N, A>(s: State<N, A>, t: State<N, A>) {
    && s.group == t.group && multiset(s.finished) == multiset(t.finished)
    && s.barriers == t.barriers && multiset(s.executed) == multiset(t.executed)
    && s.taken == t.taken && s.artifacts == t.artifacts
  }

  /** The state between the last update of a node and the end of the superstep. */
  function Held<N(==), A>(s: State<N, A>, w: Write<N, A>): State<N, A> {
    s.(group := s.group - {w.node}, finished := s.finished + [w])
  }

  // ---- one step ------------------------------------------------------------------

  lemma CommitIgnoresLog<N(!new), A>(g: Graph<N>, s: State<N, A>, log: seq<N>)
    ensures Commit(g, s.(executed := log)) == Commit(g, s).(executed := log + Names(s.finished))
  {
    var t := s.(executed := log);
    assert forall e: Edge<N> {:trigger Signalled(t, e)} :: Signalled(t, e) == Signalled(s, e);
  }

  lemma CommitSame<N(!new), A>(g: Graph<N>, s: State<N, A>, t: State<N, A>)
    requires Same(s, t) && Distinct(Started(s)) && forall n :: n in s.artifacts <==> n in s.executed
    ensures Same(Commit(g, s), Commit(g, t))
  {
    var u := s.(finished := t.finished);
    FinishingOrderIsIrrelevant(g, s, t.finished);
    assert t == u.(executed := t.executed);
    CommitIgnoresLog(g, u, t.executed);
    SameLog(s.executed, t.executed, Names(t.finished));
  }

  lemma SameLog<N>(log: seq<N>, other: seq<N>, more: seq<N>)
    requires multiset(log) == multiset(other)
    ensures multiset(log + more) == multiset(other + more)
  {
  }

  lemma FinishSame<N(!new), A>(g: Graph<N>, context: N -> map<N, bool>, before: N -> set<N>,
                               s: State<N, A>, t: State<N, A>, w: Write<N, A>)
    requires Inv(g, context, before, s) && Same(s, t) && w.node in s.group
    ensures Same(Finish(g, s, w), Finish(g, t, w))
  {
    FinishCore(g, context, before, s, w, Held(s, w));
    assert multiset(s.finished + [w]) == multiset(t.finished + [w]);
    if Held(s, w).group == {} { CommitSame(g, Held(s, w), Held(t, w)); }
  }

  /** A node that stays pending keeps the superstep, and what it is shown, as it was. */
  lemma FinishHolds<N(!new), A>(g: Graph<N>, s: State<N, A>, w: Write<N, A>, n: N)
    requires w.node in s.group && n in s.group && n != w.node
    ensures Finish(g, s, w) == Held(s, w) && n in Finish(g, s, w).group
  {
    assert n in s.group - {w.node};
  }

  lemma Swap<N(!new), A>(g: Graph<N>, context: N -> map<N, bool>, before: N -> set<N>,
                         s: State<N, A>, v: Write<N, A>, w: Write<N, A>)
    requires Checked(g, context, before) && Inv(g, context, before, s)
    requires v.node in s.group && w.node in s.group && v.node != w.node
    ensures w.node in Finish(g, s, v).group && v.node in Finish(g, s, w).group
    ensures Same(Finish(g, Finish(g, s, v), w), Finish(g, Finish(g, s, w), v))
  {
    FinishHolds(g, s, v, w.node);
    FinishHolds(g, s, w, v.node);
    var a, b := Held(Held(s, v), w), Held(Held(s, w), v);
    assert a.group == b.group && multiset(a.finished) == multiset(b.finished);
    FinishCore(g, context, before, s, v, Held(s, v));
    FinishCore(g, context, before, Held(s, v), w, a);
    if a.group == {} { CommitSame(g, a, b); }
  }

  // ---- whole invocations -------------------------------------------------------------

  /** Nodes return what `f` says, given the artifacts as the superstep began. */
  ghost predicate Follows<N, A>(g: Graph<N>, f: Behaviour<N, A>, s: State<N, A>, events: seq<Write<N, A>>)
    requires Feasible(g, s, events)
    decreases |events|
  {
    events == [] ||
    (events[0] == f(events[0].node, s.artifacts) && Follows(g, f, Finish(g, s, events[0]), events[1..]))
  }

  /** Each event is what its node returns for the artifacts of its superstep. */
  lemma {:induction false} FollowsAt<N(!new), A>(g: Graph<N>, f: Behaviour<N, A>, s: State<N, A>,
                                                events: seq<Write<N, A>>, i: nat)
    requires Feasible(g, s, events) && Follows(g, f, s, events) && i < |events|
    ensures Feasible(g, s, events[..i])
    ensures events[i] == f(events[i].node, Execute(g, s, events[..i]).artifacts)
    decreases |events|
  {
    if i > 0 {
      FollowsAt(g, f, Finish(g, s, events[0]), events[1..], i - 1);
      assert events[..i][1..] == events[1..][..i - 1];
    }
  }

  lemma {:induction false} FollowsOneMore<N(!new), A>(g: Graph<N>, f: Behaviour<N, A>, s: State<N, A>,
                                                     events: seq<Write<N, A>>, w: Write<N, A>)
    requires Feasible(g, s, events) && Follows(g, f, s, events)
    requires w.node in Execute(g, s, events).group && w == f(w.node, Execute(g, s, events).artifacts)
    ensures Feasible(g, s, events + [w]) && Follows(g, f, s, events + [w])
    decreases |events|
  {
    if events == [] {
      assert events + [w] == [w] && [w][1..] == [];
    } else {
      assert (events + [w])[1..] == events[1..] + [w];
      FollowsOneMore(g, f, Finish(g, s, events[0]), events[1..], w);
    }
  }

  /** Nodes that do not stop are run until only nodes that stop are pending. */
  ghost predicate Invocation<N(!new), A>(g: Graph<N>, f: Behaviour<N, A>, stops: N -> bool,
                                         s: State<N, A>, events: seq<Write<N, A>>) {
    && Feasible(g, s, events) && Follows(g, f, s, events)
    && (forall i :: 0 <= i < |events| ==> !stops(events[i].node))
    && (forall n :: n in Execute(g, s, events).group ==> stops(n))
  }

  lemma InvocationTail<N(!new), A>(g: Graph<N>, f: Behaviour<N, A>, stops: N -> bool,
                                   s: State<N, A>, events: seq<Write<N, A>>)
    requires events != [] && events[0].node in s.group
    ensures Invocation(g, f, stops, s, events) <==>
              && events[0] == f(events[0].node, s.artifacts) && !stops(events[0].node)
              && Invocation(g, f, stops, Finish(g, s, events[0]), events[1..])
    ensures Invocation(g, f, stops, s, events) ==>
              Execute(g, s, events) == Execute(g, Finish(g, s, events[0]), events[1..])
  {
    assert forall i :: 0 <= i < |events[1..]| ==> events[1..][i] == events[i + 1];
    if Invocation(g, f, stops, Finish(g, s, events[0]), events[1..]) && !stops(events[0].node) {
      forall i | 0 <= i < |events| ensures !stops(events[i].node) {
        if i > 0 { assert events[i] == events[1..][i - 1]; }
      }
    }
  }

  lemma {:induction false} InvocationSame<N(!new), A>(g: Graph<N>, context: N -> map<N, bool>, before: N -> set<N>,
                                                      f: Behaviour<N, A>, stops: N -> bool,
                                                      s: State<N, A>, t: State<N, A>, events: seq<Write<N, A>>)
    requires Checked(g, context, before) && Inv(g, context, before, s) && Same(s, t)
    requires Invocation(g, f, stops, s, events)
    ensures Invocation(g, f, stops, t, events) && Same(Execute(g, s, events), Execute(g, t, events))
    decreases |events|
  {
    if events != [] {
      var w := events[0];
      InvocationTail(g, f, stops, s, events);
      FinishSame(g, context, before, s, t, w);
      FinishInv(g, context, before, s, w);
      InvocationSame(g, context, before, f, stops, Finish(g, s, w), Finish(g, t, w), events[1..]);
      InvocationTail(g, f, stops, t, events);
    }
  }

  /** Any pending node may as well have finished first. */
  lemma {:induction false} MoveFront<N(!new), A(!new)>(g: Graph<N>, context: N -> map<N, bool>, before: N -> set<N>,
                                                       f: Behaviour<N, A>, stops: N -> bool,
                                                       s: State<N, A>, events: seq<Write<N, A>>, n: N)
    returns (rest: seq<Write<N, A>>)
    requires Checked(g, context, before) && Inv(g, context, before, s) && OwnNames(f)
    requires Invocation(g, f, stops, s, events) && n in s.group && !stops(n)
    ensures Invocation(g, f, stops, Finish(g, s, f(n, s.artifacts)), rest)
    ensures Same(Execute(g, Finish(g, s, f(n, s.artifacts)), rest), Execute(g, s, events))
    decreases |events|
  {
    var v, w := events[0], f(n, s.artifacts);
    InvocationTail(g, f, stops, s, events);
    if v.node == n {
      rest := events[1..];
    } else {
      FinishHolds(g, s, v, n);
      FinishHolds(g, s, w, v.node);
      FinishInv(g, context, before, s, v);
      var later := MoveFront(g, context, before, f, stops, Finish(g, s, v), events[1..], n);
      Swap(g, context, before, s, v, w);
      FinishInv(g, context, before, Finish(g, s, v), w);
      InvocationSame(g, context, before, f, stops, Finish(g, Finish(g, s, v), w), Finish(g, Finish(g, s, w), v), later);
      rest := [v] + later;
      assert rest[1..] == later;
      InvocationTail(g, f, stops, Finish(g, s, w), rest);
    }
  }

  /** However the nodes of the supersteps finish, an invocation ends the same way. */
  lemma {:induction false} InvocationsAgree<N(!new), A(!new)>(g: Graph<N>, context: N -> map<N, bool>, before: N -> set<N>,
                                                              f: Behaviour<N, A>, stops: N -> bool,
                                                              s: State<N, A>, t: State<N, A>,
                                                              events: seq<Write<N, A>>, others: seq<Write<N, A>>)
    requires Checked(g, context, before) && Inv(g, context, before, s) && Inv(g, context, before, t)
    requires OwnNames(f) && Same(s, t)
    requires Invocation(g, f, stops, s, events) && Invocation(g, f, stops, t, others)
    ensures Same(Execute(g, s, events), Execute(g, t, others))
    decreases |events|
  {
    if events == [] {
      assert others == [];
    } else {
      var w := events[0];
      InvocationTail(g, f, stops, s, events);
      var rest := MoveFront(g, context, before, f, stops, t, others, w.node);
      FinishSame(g, context, before, s, t, w);
      FinishInv(g, context, before, s, w);
      FinishInv(g, context, before, t, w);
      InvocationsAgree(g, context, before, f, stops, Finish(g, s, w), Finish(g, t, w), events[1..], rest);
    }
  }
}
