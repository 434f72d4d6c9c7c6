/**
  What the vectors are for: over every run in which each event increments its node's vector,
  and a receive first merges the vector its message carried, the vector order is exactly
  Lamport's causal order of the events.
*/
module Causality {
  import opened VersionVectors

  /** An event of a run; `Receive` names the earlier event that sent the message. */
  datatype Event = Local(node: string) | Receive(node: string, sender: nat)

  ghost predicate ValidRun(run: seq<Event>) {
    forall i :: 0 <= i < |run| && run[i].Receive? ==> run[i].sender < i
  }

  /** The last event of `node` before position `i`, or -1. */
  function LastOwn(run: seq<Event>, node: string, i: nat): (k: int)
    requires i <= |run|
    ensures -1 <= k < i
    ensures 0 <= k ==> run[k].node == node
    ensures forall j :: k < j < i ==> run[j].node != node
  {
    if i == 0 then -1
    else if run[i - 1].node == node then i - 1
    else LastOwn(run, node, i - 1)
  }

  /** The counters of the node at event `i` before the event. */
  ghost function Own(run: seq<Event>, i: nat): Counters
    requires ValidRun(run) && i < |run|
    decreases i, 0
  {
    var k := LastOwn(run, run[i].node, i);
    if k < 0 then map[] else Stamp(run, k)
  }

  /** The counters right after event `i`: merge what was received, then increment. */
  ghost function Stamp(run: seq<Event>, i: nat): Counters
    requires ValidRun(run) && i < |run|
    decreases i, 1
  {
    var own := Own(run, i);
    Bump(if run[i].Receive? then Join(own, Stamp(run, run[i].sender)) else own, run[i].node)
  }

  /** One step of causality: program order on one node, or a message. */
  ghost predicate Direct(run: seq<Event>, e: nat, f: nat) {
    && e < f < |run|
    && (run[e].node == run[f].node || (run[f].Receive? && run[f].sender == e))
  }

  ghost predicate CausalPath(run: seq<Event>, p: seq<nat>) {
    |p| >= 2 && forall k :: 0 <= k < |p| - 1 ==> Direct(run, p[k], p[k + 1])
  }

  ghost predicate Precedes(run: seq<Event>, e: nat, f: nat) {
    exists p :: CausalPath(run, p) && p[0] == e && p[|p| - 1] == f
  }

  lemma DirectPrecedes(run: seq<Event>, e: nat, f: nat)
    requires Direct(run, e, f)
    ensures Precedes(run, e, f)
  {
    var p := [e, f];
    assert CausalPath(run, p) && p[0] == e && p[|p| - 1] == f;
  }

  lemma PrecedesThenDirect(run: seq<Event>, e: nat, g: nat, f: nat)
    requires e == g || Precedes(run, e, g)
    requires Direct(run, g, f)
    ensures Precedes(run, e, f)
  {
    if e == g {
      DirectPrecedes(run, e, f);
    } else {
      var p :| CausalPath(run, p) && p[0] == e && p[|p| - 1] == g;
      var q := p + [f];
      assert CausalPath(run, q) && q[0] == e && q[|q| - 1] == f;
    }
  }

  function Count(run: seq<Event>, node: string, i: nat): nat
    requires i <= |run|
  {
    if i == 0 then 0
    else Count(run, node, i - 1) + if run[i - 1].node == node then 1 else 0
  }

  lemma CountMonotone(run: seq<Event>, node: string, i: nat, j: nat)
    requires i <= j <= |run|
    ensures Count(run, node, i) <= Count(run, node, j)
    ensures (forall k :: i <= k < j ==> run[k].node != node) ==> Count(run, node, i) == Count(run, node, j)
    decreases j - i
  {
    if i < j {
      CountMonotone(run, node, i, j - 1);
    }
  }

  /** A node's own entry counts its events; no vector runs ahead of that count. */
  lemma {:induction false} StampBound(run: seq<Event>, i: nat, node: string)
    requires ValidRun(run) && i < |run|
    ensures At(Stamp(run, i), node) <= Count(run, node, i + 1)
    ensures At(Stamp(run, i), run[i].node) == Count(run, run[i].node, i + 1)
    decreases i
  {
    OwnCounts(run, i, node);
    OwnCounts(run, i, run[i].node);
    if run[i].Receive? {
      var s := run[i].sender;
      StampBound(run, s, node);
      StampBound(run, s, run[i].node);
      CountMonotone(run, node, s + 1, i);
      CountMonotone(run, run[i].node, s + 1, i);
    }
  }

  lemma {:induction false} OwnCounts(run: seq<Event>, i: nat, node: string)
    requires ValidRun(run) && i < |run|
    ensures At(Own(run, i), node) <= Count(run, node, i)
    ensures At(Own(run, i), run[i].node) == Count(run, run[i].node, i)
    decreases i, 0
  {
    var own := run[i].node;
    var k := LastOwn(run, own, i);
    CountMonotone(run, node, k + 1, i);
    CountMonotone(run, own, k + 1, i);
    if 0 <= k {
      StampBound(run, k, node);
    }
  }

  /** Vectors only grow along a direct step. */
  lemma {:induction false} DirectGrows(run: seq<Event>, e: nat, f: nat, node: string)
    requires ValidRun(run) && Direct(run, e, f)
    ensures At(Stamp(run, e), node) <= At(Stamp(run, f), node)
    decreases f
  {
    if run[e].node == run[f].node {
      var k := LastOwn(run, run[f].node, f);
      if e < k {
        DirectGrows(run, e, k, node);
      }
    }
  }

  lemma {:induction false} PathGrows(run: seq<Event>, p: seq<nat>, node: string)
    requires ValidRun(run) && CausalPath(run, p)
    ensures p[0] < p[|p| - 1] < |run|
    ensures At(Stamp(run, p[0]), node) <= At(Stamp(run, p[|p| - 1]), node)
    decreases |p|
  {
    DirectGrows(run, p[0], p[1], node);
    if |p| > 2 {
      var q := p[1..];
      forall k | 0 <= k < |q| - 1
        ensures Direct(run, q[k], q[k + 1])
      {
        assert Direct(run, p[k + 1], p[k + 1 + 1]);
      }
      PathGrows(run, q, node);
    }
  }

  /** Knowing of as many events of `e`'s node as `e` itself means having `e` in the past. */
  lemma {:induction false} KnowsPast(run: seq<Event>, e: nat, f: nat)
    requires ValidRun(run) && e < |run| && f < |run|
    requires At(Stamp(run, f), run[e].node) >= At(Stamp(run, e), run[e].node)
    ensures e == f || Precedes(run, e, f)
    decreases f
  {
    var node := run[e].node;
    StampBound(run, e, node);
    if run[f].node == node {
      StampBound(run, f, node);
      if f < e {
        CountMonotone(run, node, f + 1, e);
        assert false;
      }
      if e < f {
        DirectPrecedes(run, e, f);
      }
    } else {
      var own := Own(run, f);
      var k := LastOwn(run, run[f].node, f);
      if 0 <= k && At(own, node) >= At(Stamp(run, e), node) {
        KnowsPast(run, e, k);
        PrecedesThenDirect(run, e, k, f);
      } else {
        var s := run[f].sender;
        KnowsPast(run, e, s);
        PrecedesThenDirect(run, e, s, f);
      }
    }
  }

  /** The events of `node` in the causal past of event `i`, itself included. */
  ghost function Past(run: seq<Event>, i: nat, node: string): set<nat> {
    set k: nat | k < |run| && run[k].node == node && (k == i || Precedes(run, k, i))
  }

  /** The events of `node` before position `n` that are among its first `v`. */
  ghost function FirstOf(run: seq<Event>, node: string, v: nat, n: nat): (first: set<nat>)
    requires n <= |run|
    ensures forall k :: k in first ==> k < n
    ensures |first| == if v <= Count(run, node, n) then v else Count(run, node, n)
  {
    if n == 0 then {}
    else
      var before := FirstOf(run, node, v, n - 1);
      if run[n - 1].node == node && Count(run, node, n) <= v then before + {n - 1} else before
  }

  lemma {:induction false} FirstOfMembers(run: seq<Event>, node: string, v: nat, n: nat, k: nat)
    requires n <= |run|
    ensures k in FirstOf(run, node, v, n) <==> k < n && run[k].node == node && Count(run, node, k + 1) <= v
  {
    if n > 0 {
      FirstOfMembers(run, node, v, n - 1, k);
    }
  }

  lemma PastIsKnown(run: seq<Event>, i: nat, e: nat)
    requires ValidRun(run) && i < |run| && e < |run|
    ensures e == i || Precedes(run, e, i) <==> Count(run, run[e].node, e + 1) <= At(Stamp(run, i), run[e].node)
  {
    StampBound(run, e, run[e].node);
    if Precedes(run, e, i) {
      var p :| CausalPath(run, p) && p[0] == e && p[|p| - 1] == i;
      PathGrows(run, p, run[e].node);
    }
    if Count(run, run[e].node, e + 1) <= At(Stamp(run, i), run[e].node) {
      KnowsPast(run, e, i);
    }
  }

  /** An event's entry for a node is the number of that node's events in its causal past, itself included. */
  lemma StampCounts(run: seq<Event>, i: nat, node: string)
    requires ValidRun(run) && i < |run|
    ensures At(Stamp(run, i), node) == |Past(run, i, node)|
  {
    var v := At(Stamp(run, i), node);
    StampBound(run, i, node);
    CountMonotone(run, node, i + 1, |run|);
    forall e: nat
      ensures e in Past(run, i, node) <==> e in FirstOf(run, node, v, |run|)
    {
      FirstOfMembers(run, node, v, |run|, e);
      if e < |run| && run[e].node == node {
        PastIsKnown(run, i, e);
      }
    }
    assert Past(run, i, node) == FirstOf(run, node, v, |run|);
  }

  /** The characterisation: one event's vector happens before another's iff it causally precedes it. */
  lemma HappensBeforeIsCausality(run: seq<Event>, e: nat, f: nat)
    requires ValidRun(run) && e < |run| && f < |run|
    ensures Before(Stamp(run, e), Stamp(run, f)) <==> Precedes(run, e, f)
  {
    if Before(Stamp(run, e), Stamp(run, f)) {
      KnowsPast(run, e, f);
    }
    if Precedes(run, e, f) {
      var p :| CausalPath(run, p) && p[0] == e && p[|p| - 1] == f;
      forall node
        ensures At(Stamp(run, e), node) <= At(Stamp(run, f), node)
      {
        PathGrows(run, p, node);
      }
      PathGrows(run, p, run[f].node);
      if At(Stamp(run, f), run[f].node) <= At(Stamp(run, e), run[f].node) {
        KnowsPast(run, f, e);
        var q :| CausalPath(run, q) && q[0] == f && q[|q| - 1] == e;
        PathGrows(run, q, run[f].node);
        assert false;
      }
    }
  }

  /** Two distinct events are reported as a conflict exactly when neither caused the other. */
  lemma ConcurrentIsUnordered(run: seq<Event>, e: nat, f: nat)
    requires ValidRun(run) && e < |run| && f < |run|
    ensures (Leq(Stamp(run, e), Stamp(run, f)) <==> Leq(Stamp(run, f), Stamp(run, e)))
      <==> !Precedes(run, e, f) && !Precedes(run, f, e)
  {
    ConcurrentMeaning(Stamp(run, e), Stamp(run, f));
    HappensBeforeIsCausality(run, e, f);
    HappensBeforeIsCausality(run, f, e);
  }
}
