/**
  Vector clocks of the failover manager (`VersionVector` in mesh_failover.py).

  A vector maps node ids to counters; an absent entry reads as 0. The class keeps the
  source's mutable `counters`; the functions below are what its methods are proved against.
*/
module VersionVectors {

  type Counters = map<string, nat>

  function At(c: Counters, node: string): nat {
    if node in c then c[node] else 0
  }

  function Max(a: nat, b: nat): nat {
    if a < b then b else a
  }

  function Bump(c: Counters, node: string): Counters {
    c[node := At(c, node) + 1]
  }

  function Join(a: Counters, b: Counters): Counters {
    map node | node in a.Keys + b.Keys :: Max(At(a, node), At(b, node))
  }

  /** `a` is dominated by `b` on every node, including the nodes neither of them mentions. */
  ghost predicate Leq(a: Counters, b: Counters) {
    forall node :: At(a, node) <= At(b, node)
  }

  ghost predicate Before(a: Counters, b: Counters) {
    Leq(a, b) && exists node :: At(a, node) < At(b, node)
  }

  class VersionVector {
    const nodeId: string
    var counters: Counters
    var timestamp: string

    constructor (nodeId: string)
      ensures this.nodeId == nodeId && counters == map[] && timestamp == ""
    {
      this.nodeId := nodeId;
      counters := map[];
      timestamp := "";
    }

    method Increment(now: string)
      modifies this
      ensures counters == Bump(old(counters), nodeId)
      ensures timestamp == now
    {
      counters := counters[nodeId := (if nodeId in counters then counters[nodeId] else 0) + 1];
      timestamp := now;
    }

    method Merge(other: VersionVector, now: string) returns (merged: VersionVector)
      ensures fresh(merged) && merged.nodeId == nodeId && merged.timestamp == now
      ensures merged.counters == Join(counters, other.counters)
    {
      merged := new VersionVector(nodeId);
      var left := counters.Keys + other.counters.Keys;
      ghost var all := left;
      while left != {}
        invariant left <= all
        invariant merged.counters.Keys == all - left
        invariant forall n :: n in all - left ==>
          merged.counters[n] == Max(At(counters, n), At(other.counters, n))
        invariant fresh(merged) && merged.nodeId == nodeId
        decreases left
      {
        var node :| node in left;
        merged.counters := merged.counters[node := Max(At(counters, node), At(other.counters, node))];
        left := left - {node};
      }
      merged.timestamp := now;
    }

    method HappensBefore(other: VersionVector) returns (dominated: bool)
      ensures dominated <==> Before(counters, other.counters)
    {
      dominated := false;
      var left := counters.Keys + other.counters.Keys;
      while left != {}
        invariant left <= counters.Keys + other.counters.Keys
        invariant forall n :: n !in left ==> At(counters, n) <= At(other.counters, n)
        invariant dominated <==> exists n :: n !in left && At(counters, n) < At(other.counters, n)
        decreases left
      {
        var node :| node in left;
        var mine := At(counters, node);
        var theirs := At(other.counters, node);
        if mine > theirs {
          return false;
        }
        if mine < theirs {
          dominated := true;
        }
        left := left - {node};
      }
    }

    /** Equal vectors are reported as concurrent, as well as incomparable ones. */
    method ConcurrentWith(other: VersionVector) returns (concurrent: bool)
      ensures concurrent <==>
        (Leq(counters, other.counters) <==> Leq(other.counters, counters))
    {
      var before := HappensBefore(other);
      var after := other.HappensBefore(this);
      ConcurrentMeaning(counters, other.counters);
      return !before && !after;
    }
  }

  /** Neither vector is before the other exactly when they are pointwise equal or incomparable. */
  lemma ConcurrentMeaning(a: Counters, b: Counters)
    ensures (!Before(a, b) && !Before(b, a)) <==> (Leq(a, b) <==> Leq(b, a))
  {
    if Leq(a, b) && !Leq(b, a) {
      var node :| At(b, node) > At(a, node);
      assert Before(a, b);
    }
    if Leq(b, a) && !Leq(a, b) {
      var node :| At(a, node) > At(b, node);
      assert Before(b, a);
    }
  }

  lemma BeforeIsStrictPartialOrder(a: Counters, b: Counters, c: Counters)
    ensures !Before(a, a)
    ensures Before(a, b) ==> !Before(b, a)
    ensures Before(a, b) && Before(b, c) ==> Before(a, c)
  {
    if Before(a, b) && Before(b, c) {
      var node :| At(a, node) < At(b, node);
      assert At(a, node) < At(c, node);
    }
  }

  /** `Join` is the least upper bound of the domination order. */
  lemma JoinIsLeastUpperBound(a: Counters, b: Counters, c: Counters)
    ensures Leq(a, Join(a, b)) && Leq(b, Join(a, b))
    ensures Leq(Join(a, b), c) <==> Leq(a, c) && Leq(b, c)
  {
    assert forall node :: At(Join(a, b), node) == Max(At(a, node), At(b, node));
    if Leq(Join(a, b), c) {
      forall node
        ensures At(a, node) <= At(c, node) && At(b, node) <= At(c, node)
      {
        assert At(Join(a, b), node) <= At(c, node);
      }
    }
    if Leq(a, c) && Leq(b, c) {
      forall node
        ensures At(Join(a, b), node) <= At(c, node)
      {
        assert At(a, node) <= At(c, node) && At(b, node) <= At(c, node);
      }
    }
  }
}
