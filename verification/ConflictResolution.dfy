/**
  Last-write-wins (`resolve_conflict` in mesh_failover.py). Timestamps and node ids are compared
  as strings in the source; here they stand for their position in that order, a missing one being
  the least.
*/
module ConflictResolution {

  datatype Update = Update(timestamp: nat, node: nat, payload: string)

  function Resolve(local: Update, remote: Update): Update {
    if local.timestamp > remote.timestamp then local
    else if remote.timestamp > local.timestamp then remote
    else if local.node > remote.node then local
    else remote
  }

  /** Folding `resolve_conflict` over updates as they arrive. */
  function Resolved(updates: seq<Update>): Update
    requires updates != []
  {
    if |updates| == 1 then updates[0]
    else Resolve(Resolved(updates[..|updates| - 1]), updates[|updates| - 1])
  }

  predicate AtMost(a: Update, b: Update) {
    a.timestamp < b.timestamp || (a.timestamp == b.timestamp && a.node <= b.node)
  }

  ghost predicate Top(updates: seq<Update>, u: Update) {
    u in updates && forall v :: v in updates ==> AtMost(v, u)
  }

  /** The winner is an update that arrived, and none carries a later (timestamp, node id). */
  lemma {:induction false} ResolvedIsMaximum(updates: seq<Update>)
    requires updates != []
    ensures Top(updates, Resolved(updates))
  {
    if |updates| > 1 {
      var front := updates[..|updates| - 1];
      ResolvedIsMaximum(front);
      assert updates == front + [updates[|updates| - 1]];
    }
  }

  ghost predicate Reordering(updates: seq<Update>, others: seq<Update>) {
    others != [] && multiset(updates) == multiset(others)
  }

  /** Every replica ends with the same update, whatever the order of arrival. */
  ghost predicate Converges(updates: seq<Update>)
    requires updates != []
  {
    forall others :: Reordering(updates, others) ==> Resolved(others) == Resolved(updates)
  }

  ghost predicate OneTop(updates: seq<Update>) {
    forall u, v :: Top(updates, u) && Top(updates, v) ==> u == v
  }

  lemma ReorderingMembers(updates: seq<Update>, others: seq<Update>, u: Update)
    requires multiset(updates) == multiset(others)
    ensures u in updates <==> u in others
  {
    assert u in updates <==> u in multiset(updates);
    assert u in others <==> u in multiset(others);
  }

  /** An update no one exceeds wins when it arrives last. */
  lemma TopLastWins(updates: seq<Update>, u: Update) returns (others: seq<Update>)
    requires updates != [] && Top(updates, u)
    ensures Reordering(updates, others) && Resolved(others) == u
  {
    var i :| 0 <= i < |updates| && updates[i] == u;
    var rest := updates[..i] + updates[i + 1..];
    others := rest + [u];
    assert updates == updates[..i] + [u] + updates[i + 1..];
    assert others[..|rest|] == rest;
    if rest != [] {
      ResolvedIsMaximum(rest);
      assert Resolved(rest) in updates;
    }
  }

  /** Convergence holds exactly when the latest (timestamp, node id) belongs to one update only. */
  lemma ConvergesIff(updates: seq<Update>)
    requires updates != []
    ensures Converges(updates) <==> OneTop(updates)
  {
    if OneTop(updates) {
      forall others | Reordering(updates, others)
        ensures Resolved(others) == Resolved(updates)
      {
        ResolvedIsMaximum(updates);
        ResolvedIsMaximum(others);
        var winner := Resolved(others);
        forall v
          ensures v in updates <==> v in others
        {
          ReorderingMembers(updates, others, v);
        }
        assert Top(updates, winner);
      }
    }
    if Converges(updates) {
      forall u, v | Top(updates, u) && Top(updates, v)
        ensures u == v
      {
        var withU := TopLastWins(updates, u);
        var withV := TopLastWins(updates, v);
      }
    }
  }

  /** Pairwise distinct (timestamp, node id) keys are enough. */
  lemma DistinctKeysConverge(updates: seq<Update>)
    requires updates != []
    requires forall i, j :: 0 <= i < j < |updates| ==>
               !(updates[i].timestamp == updates[j].timestamp && updates[i].node == updates[j].node)
    ensures Converges(updates) && Top(updates, Resolved(updates))
  {
    ResolvedIsMaximum(updates);
    forall u, v | Top(updates, u) && Top(updates, v)
      ensures u == v
    {
      var i :| 0 <= i < |updates| && updates[i] == u;
      var j :| 0 <= j < |updates| && updates[j] == v;
      assert AtMost(u, v) && AtMost(v, u);
    }
    ConvergesIff(updates);
  }
}
