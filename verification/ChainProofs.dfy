/**
  What the chain traversal and the two validators establish, for every parent graph, cycles and
  unresolved parents included.
*/
module ChainProofs {
  import opened Options
  import opened Versions
  import opened ChainValidator

  // ---- Reachability, independently of the traversal ----

  /** Some attestation with digest `child` names `parent` as its parent. */
  ghost predicate Linked(atts: seq<Attestation>, parent: string, child: string) {
    exists a :: a in atts && a.hash == child && HasParent(a) && a.parent.value == parent
  }

  ghost predicate IsRoot(atts: seq<Attestation>, h: string) {
    exists a :: a in atts && a.hash == h && !HasParent(a)
  }

  ghost predicate LinkPath(atts: seq<Attestation>, p: seq<string>) {
    p != [] && forall k :: 0 <= k < |p| - 1 ==> Linked(atts, p[k], p[k + 1])
  }

  ghost predicate Reachable(atts: seq<Attestation>, h: string) {
    exists p :: LinkPath(atts, p) && IsRoot(atts, p[0]) && p[|p| - 1] == h
  }

  ghost predicate Descends(atts: seq<Attestation>, from: string, h: string) {
    exists p :: LinkPath(atts, p) && |p| >= 2 && p[0] == from && p[|p| - 1] == h
  }

  lemma ReachableStep(atts: seq<Attestation>, h: string, child: string)
    requires Reachable(atts, h) && Linked(atts, h, child)
    ensures Reachable(atts, child)
  {
    var p :| LinkPath(atts, p) && IsRoot(atts, p[0]) && p[|p| - 1] == h;
    var q := p + [child];
    assert LinkPath(atts, q) && IsRoot(atts, q[0]) && q[|q| - 1] == child;
  }

  lemma RootReachable(atts: seq<Attestation>, h: string)
    requires IsRoot(atts, h)
    ensures Reachable(atts, h)
  {
    var p := [h];
    assert LinkPath(atts, p) && IsRoot(atts, p[0]) && p[|p| - 1] == h;
  }

  /** The tree lists exactly the linked digests. */
  lemma {:induction false} ChildIsLinked(atts: seq<Attestation>, key: string, child: string)
    ensures child in ChildrenOf(atts, key) <==> Linked(atts, key, child)
    ensures Linked(atts, key, child) ==> child in Index(atts)
  {
    if atts != [] {
      var front, last := atts[..|atts| - 1], atts[|atts| - 1];
      assert atts == front + [last];
      ChildIsLinked(front, key, child);
      assert Linked(atts, key, child) <==>
        Linked(front, key, child) || (last.hash == child && HasParent(last) && last.parent.value == key);
    }
  }

  lemma RootListed(atts: seq<Attestation>, h: string)
    ensures h in HashesOf(Genesis(atts)) <==> IsRoot(atts, h)
  {
    var genesis := Genesis(atts);
    if IsRoot(atts, h) {
      var a :| a in atts && a.hash == h && !HasParent(a);
      GenesisListed(atts, a);
      var i :| 0 <= i < |genesis| && genesis[i] == a;
      assert HashesOf(genesis)[i] == h;
    }
    if h in HashesOf(genesis) {
      var i :| 0 <= i < |genesis| && HashesOf(genesis)[i] == h;
      GenesisListed(atts, genesis[i]);
    }
  }

  // ---- What a traversal does to the visiting order ----

  ghost predicate DistinctOrder(order: seq<Digest>) {
    forall i, j :: 0 <= i < j < |order| ==> order[i] != order[j]
  }

  /** Position `k` holds a digest of `todo`, or one linked to an earlier position. */
  ghost predicate Supported(atts: seq<Attestation>, todo: seq<Digest>, order: seq<Digest>, k: nat)
    requires k < |order|
  {
    order[k] in todo || exists j :: 0 <= j < k && Linked(atts, order[j], order[k])
  }

  /** `order` extends `before` by visiting `todo`. */
  ghost predicate Explores(atts: seq<Attestation>, todo: seq<Digest>, before: seq<Digest>, order: seq<Digest>) {
    && before <= order
    && DistinctOrder(order)
    && (forall h :: h in todo && h in Index(atts) ==> h in order)
    && (forall h, c :: h in order && h !in before && Linked(atts, h, c) ==> c in order)
    && (forall k :: |before| <= k < |order| ==> order[k] in Index(atts) && Supported(atts, todo, order, k))
  }

  lemma DistinctAppend(order: seq<Digest>, h: Digest)
    requires DistinctOrder(order) && h !in order
    ensures DistinctOrder(order + [h])
  {
  }

  lemma {:induction false} VisitExplores(atts: seq<Attestation>, allowForks: bool, todo: seq<Digest>, depth: nat,
      w: Walk)
    requires DistinctOrder(w.order)
    ensures Explores(atts, todo, w.order, VisitAll(atts, allowForks, todo, depth, w).order)
    decreases Index(atts).Keys - Seen(w), |todo|
  {
    if todo != [] {
      var h := todo[0];
      if h !in Index(atts) || h in w.order {
        VisitExplores(atts, allowForks, todo[1..], depth, w);
        SkipExplores(atts, todo, w.order, VisitAll(atts, allowForks, todo[1..], depth, w).order);
      } else {
        var a := Index(atts)[h];
        var noted := Walk(w.order + [h], Note(atts, allowForks, a, depth, w.result));
        assert h in Seen(noted) && h !in Seen(w);
        DistinctAppend(w.order, h);
        var children := ChildrenOf(atts, h);
        VisitExplores(atts, allowForks, children, depth + 1, noted);
        var below := VisitAll(atts, allowForks, children, depth + 1, noted);
        SeenGrows(noted, below);
        VisitExplores(atts, allowForks, todo[1..], depth, below);
        JoinExplores(atts, todo, w.order, below.order, VisitAll(atts, allowForks, todo[1..], depth, below).order);
      }
    }
  }

  lemma SkipExplores(atts: seq<Attestation>, todo: seq<Digest>, before: seq<Digest>, order: seq<Digest>)
    requires todo != [] && (todo[0] !in Index(atts) || todo[0] in before)
    requires Explores(atts, todo[1..], before, order)
    ensures Explores(atts, todo, before, order)
  {
    forall h | h in todo && h in Index(atts)
      ensures h in order
    {
      if h == todo[0] {
        var i :| 0 <= i < |before| && before[i] == h;
        assert order[i] == h;
      } else {
        assert h in todo[1..];
      }
    }
    forall k | |before| <= k < |order|
      ensures order[k] in Index(atts) && Supported(atts, todo, order, k)
    {
      assert Supported(atts, todo[1..], order, k);
    }
  }

  lemma JoinExplores(atts: seq<Attestation>, todo: seq<Digest>, before: seq<Digest>, mid: seq<Digest>,
      order: seq<Digest>)
    requires todo != [] && todo[0] in Index(atts) && todo[0] !in before
    requires Explores(atts, ChildrenOf(atts, todo[0]), before + [todo[0]], mid)
    requires Explores(atts, todo[1..], mid, order)
    ensures Explores(atts, todo, before, order)
  {
    var h0 := todo[0];
    assert mid[|before|] == h0 by {
      assert (before + [h0])[|before|] == h0;
    }
    forall x | x in mid
      ensures x in order
    {
      var i :| 0 <= i < |mid| && mid[i] == x;
      assert order[i] == x;
    }
    forall h | h in todo && h in Index(atts)
      ensures h in order
    {
      if h != h0 {
        assert h in todo[1..];
      }
    }
    forall h, c | h in order && h !in before && Linked(atts, h, c)
      ensures c in order
    {
      ChildIsLinked(atts, h, c);
      if h in mid && h != h0 {
        assert h !in before + [h0];
      }
    }
    forall k | |before| <= k < |order|
      ensures order[k] in Index(atts) && Supported(atts, todo, order, k)
    {
      if k < |mid| {
        assert order[k] == mid[k];
        if k > |before| {
          assert Supported(atts, ChildrenOf(atts, h0), mid, k);
          if mid[k] in ChildrenOf(atts, h0) {
            ChildIsLinked(atts, h0, mid[k]);
            assert Linked(atts, order[|before|], order[k]);
          } else {
            var j :| 0 <= j < k && Linked(atts, mid[j], mid[k]);
            assert order[j] == mid[j];
          }
        }
      } else {
        assert Supported(atts, todo[1..], order, k);
      }
    }
  }

  // ---- The whole traversal ----

  ghost function Order(atts: seq<Attestation>): seq<Digest> {
    Traversed(atts, true, BLANK).order
  }

  /** The order depends neither on the fork policy nor on what the result already holds. */
  lemma {:induction false} SameOrder(atts: seq<Attestation>, f: bool, g: bool, todo: seq<Digest>, d: nat, e: nat,
      v: Walk, w: Walk)
    requires v.order == w.order
    ensures VisitAll(atts, f, todo, d, v).order == VisitAll(atts, g, todo, e, w).order
    decreases Index(atts).Keys - Seen(v), |todo|
  {
    if todo != [] {
      if todo[0] !in Index(atts) || todo[0] in v.order {
        SameOrder(atts, f, g, todo[1..], d, e, v, w);
      } else {
        var a := Index(atts)[todo[0]];
        var v1 := Walk(v.order + [a.hash], Note(atts, f, a, d, v.result));
        var w1 := Walk(w.order + [a.hash], Note(atts, g, a, e, w.result));
        assert a.hash in Seen(v1) && a.hash !in Seen(v);
        var children := ChildrenOf(atts, a.hash);
        SameOrder(atts, f, g, children, d + 1, e + 1, v1, w1);
        SeenGrows(v1, VisitAll(atts, f, children, d + 1, v1));
        var v2, w2 := VisitAll(atts, f, children, d + 1, v1), VisitAll(atts, g, children, e + 1, w1);
        SameOrder(atts, f, g, todo[1..], d, e, v2, w2);
      }
    }
  }

  /**
    The traversal visits exactly the attestations reachable from a genesis one, each once, and
    every non-genesis one after an attestation it names as its parent.
  */
  lemma TraversalIsExact(atts: seq<Attestation>)
    ensures DistinctOrder(Order(atts))
    ensures forall h :: h in Order(atts) <==> Reachable(atts, h)
    ensures forall k :: 0 <= k < |Order(atts)| ==>
              IsRoot(atts, Order(atts)[k]) || exists j :: 0 <= j < k && Linked(atts, Order(atts)[j], Order(atts)[k])
  {
    var order := Order(atts);
    var roots := HashesOf(Genesis(atts));
    VisitExplores(atts, true, roots, 0, Walk([], BLANK));
    forall k | 0 <= k < |order|
      ensures IsRoot(atts, order[k]) || exists j :: 0 <= j < k && Linked(atts, order[j], order[k])
    {
      assert Supported(atts, roots, order, k);
      RootListed(atts, order[k]);
    }
    forall h
      ensures h in order <==> Reachable(atts, h)
    {
      if h in order {
        var k :| 0 <= k < |order| && order[k] == h;
        VisitedReachable(atts, k);
      }
      if Reachable(atts, h) {
        var p :| LinkPath(atts, p) && IsRoot(atts, p[0]) && p[|p| - 1] == h;
        PathVisited(atts, p, |p| - 1);
      }
    }
  }

  lemma {:induction false} VisitedReachable(atts: seq<Attestation>, k: nat)
    requires k < |Order(atts)|
    ensures Reachable(atts, Order(atts)[k])
  {
    var order := Order(atts);
    VisitExplores(atts, true, HashesOf(Genesis(atts)), 0, Walk([], BLANK));
    assert Supported(atts, HashesOf(Genesis(atts)), order, k);
    RootListed(atts, order[k]);
    if IsRoot(atts, order[k]) {
      RootReachable(atts, order[k]);
    } else {
      var j :| 0 <= j < k && Linked(atts, order[j], order[k]);
      VisitedReachable(atts, j);
      ReachableStep(atts, order[j], order[k]);
    }
  }

  lemma {:induction false} PathVisited(atts: seq<Attestation>, p: seq<string>, k: nat)
    requires LinkPath(atts, p) && IsRoot(atts, p[0]) && k < |p|
    ensures p[k] in Order(atts)
  {
    VisitExplores(atts, true, HashesOf(Genesis(atts)), 0, Walk([], BLANK));
    if k == 0 {
      RootListed(atts, p[0]);
    } else {
      PathVisited(atts, p, k - 1);
      assert Linked(atts, p[k - 1], p[k]);
    }
  }

  // ---- What the result records about the order ----

  function AttsOf(atts: seq<Attestation>, order: seq<Digest>): seq<Attestation>
    requires forall h :: h in order ==> h in Index(atts)
  {
    seq(|order|, i requires 0 <= i < |order| => Index(atts)[order[i]])
  }

  function ForksOf(atts: seq<Attestation>, order: seq<Digest>): seq<Digest> {
    if order == [] then []
    else
      var h := order[|order| - 1];
      ForksOf(atts, order[..|order| - 1]) + if |ChildrenOf(atts, h)| > 1 then [h] else []
  }

  ghost predicate Records(atts: seq<Attestation>, allowForks: bool, w: Walk, start: ChainResult) {
    && (forall h :: h in w.order ==> h in Index(atts))
    && w.result.versions == VersionsOf(AttsOf(atts, w.order))
    && w.result.authors == AuthorsOf(AttsOf(atts, w.order))
    && w.result.forks == ForksOf(atts, w.order)
    && w.result.genesisId == (if w.order == [] then "" else w.order[0])
    && w.result.latestId == (if w.order == [] then "" else w.order[|w.order| - 1])
    && (w.result.valid <==> start.valid && (allowForks || w.result.forks == []))
  }

  lemma AttsAppend(atts: seq<Attestation>, order: seq<Digest>, h: Digest)
    requires h in Index(atts) && forall k :: k in order ==> k in Index(atts)
    ensures AttsOf(atts, order + [h]) == AttsOf(atts, order) + [Index(atts)[h]]
  {
  }

  lemma ForksAppend(atts: seq<Attestation>, order: seq<Digest>, h: Digest)
    ensures ForksOf(atts, order + [h]) == ForksOf(atts, order) + if |ChildrenOf(atts, h)| > 1 then [h] else []
  {
    assert (order + [h])[..|order|] == order;
  }

  lemma NoteRecords(atts: seq<Attestation>, allowForks: bool, h: Digest, depth: nat, w: Walk, start: ChainResult)
    requires Records(atts, allowForks, w, start) && h in Index(atts) && (w.order == [] ==> depth == 0)
    ensures Records(atts, allowForks, Noted(atts, allowForks, h, depth, w), start)
  {
    ForksAppend(atts, w.order, h);
    AttsAppend(atts, w.order, h);
    VersionsAppend(AttsOf(atts, w.order), Index(atts)[h]);
    AuthorsAppend(AttsOf(atts, w.order), Index(atts)[h]);
    assert w.result.genesisId == "" <==> w.order == [];
  }

  ghost function Noted(atts: seq<Attestation>, allowForks: bool, h: Digest, depth: nat, w: Walk): Walk
    requires h in Index(atts)
  {
    Walk(w.order + [h], Note(atts, allowForks, Index(atts)[h], depth, w.result))
  }

  ghost predicate KeptByNoting(atts: seq<Attestation>, allowForks: bool, inv: Walk -> bool) {
    forall v, h, d :: inv(v) && h in Index(atts) && (v.order == [] ==> d == 0) ==> inv(Noted(atts, allowForks, h, d, v))
  }

  /** What holds before and is kept by noting one more attestation holds after a traversal. */
  lemma {:induction false} VisitKeeps(atts: seq<Attestation>, allowForks: bool, todo: seq<Digest>, depth: nat,
      w: Walk, inv: Walk -> bool)
    requires inv(w) && (w.order == [] ==> depth == 0) && KeptByNoting(atts, allowForks, inv)
    ensures inv(VisitAll(atts, allowForks, todo, depth, w))
    decreases Index(atts).Keys - Seen(w), |todo|, 1
  {
    if todo != [] {
      if todo[0] !in Index(atts) || todo[0] in w.order {
        VisitKeeps(atts, allowForks, todo[1..], depth, w, inv);
      } else {
        var below := VisitKeepsFirst(atts, allowForks, todo, depth, w, inv);
        VisitKeeps(atts, allowForks, todo[1..], depth, below, inv);
      }
    }
  }

  lemma {:induction false} VisitKeepsFirst(atts: seq<Attestation>, allowForks: bool, todo: seq<Digest>, depth: nat,
      w: Walk, inv: Walk -> bool)
    returns (below: Walk)
    requires inv(w) && (w.order == [] ==> depth == 0) && KeptByNoting(atts, allowForks, inv)
    requires todo != [] && todo[0] in Index(atts) && todo[0] !in w.order
    ensures inv(below) && below.order != [] && Index(atts).Keys - Seen(below) < Index(atts).Keys - Seen(w)
    ensures VisitAll(atts, allowForks, todo, depth, w) == VisitAll(atts, allowForks, todo[1..], depth, below)
    decreases Index(atts).Keys - Seen(w), |todo|, 0
  {
    var noted := Noted(atts, allowForks, todo[0], depth, w);
    assert todo[0] in Seen(noted) && todo[0] !in Seen(w);
    SeenGrows(w, noted);
    VisitKeeps(atts, allowForks, ChildrenOf(atts, todo[0]), depth + 1, noted, inv);
    below := VisitAll(atts, allowForks, ChildrenOf(atts, todo[0]), depth + 1, noted);
    SeenGrows(noted, below);
    assert |below.order| >= |noted.order|;
  }

  lemma VisitRecords(atts: seq<Attestation>, allowForks: bool, todo: seq<Digest>, w: Walk, start: ChainResult)
    requires Records(atts, allowForks, w, start)
    ensures Records(atts, allowForks, VisitAll(atts, allowForks, todo, 0, w), start)
  {
    var inv := (v: Walk) => Records(atts, allowForks, v, start);
    assert KeptByNoting(atts, allowForks, inv) by {
      forall v, h, d | inv(v) && h in Index(atts) && (v.order == [] ==> d == 0)
        ensures inv(Noted(atts, allowForks, h, d, v))
      {
        NoteRecords(atts, allowForks, h, d, v, start);
      }
    }
    VisitKeeps(atts, allowForks, todo, 0, w, inv);
  }

  lemma {:induction false} ForksExact(atts: seq<Attestation>, order: seq<Digest>, h: Digest)
    ensures h in ForksOf(atts, order) <==> h in order && |ChildrenOf(atts, h)| > 1
  {
    if order != [] {
      var front, last := order[..|order| - 1], order[|order| - 1];
      assert order == front + [last];
      ForksExact(atts, front, h);
    }
  }

  /** Everything `_traverse_chain` reports, whatever the fork policy. */
  lemma TraversalReport(atts: seq<Attestation>, allowForks: bool, warnings: seq<ChainWarning>)
    ensures var w := Traversed(atts, allowForks, BLANK.(warnings := warnings));
      && w.order == Order(atts)
      && Records(atts, allowForks, w, BLANK)
      && (forall h :: h in w.result.forks <==> Reachable(atts, h) && |ChildrenOf(atts, h)| > 1)
  {
    var roots := HashesOf(Genesis(atts));
    var start := Walk([], BLANK.(warnings := warnings));
    SameOrder(atts, allowForks, true, roots, 0, 0, start, Walk([], BLANK));
    VisitRecords(atts, allowForks, roots, start, BLANK);
    TraversalIsExact(atts);
    var w := VisitAll(atts, allowForks, roots, 0, start);
    forall h
      ensures h in w.result.forks <==> Reachable(atts, h) && |ChildrenOf(atts, h)| > 1
    {
      if h in w.result.forks {
        ForksExact(atts, w.order, h);
      } else if Reachable(atts, h) && |ChildrenOf(atts, h)| > 1 {
        assert h in w.order;
        ForksExact(atts, w.order, h);
      }
    }
  }

  // ---- Completeness ----

  /** Every parent resolves and the parent relation has no cycle. */
  ghost predicate Grounded(atts: seq<Attestation>) {
    exists rank: map<string, nat> :: Ranks(atts, rank)
  }

  ghost predicate Ranks(atts: seq<Attestation>, rank: map<string, nat>) {
    forall a :: a in atts ==> RankedAbove(atts, rank, a)
  }

  ghost predicate RankedAbove(atts: seq<Attestation>, rank: map<string, nat>, a: Attestation) {
    && a.hash in rank
    && (HasParent(a) ==>
          a.parent.value in Index(atts) && a.parent.value in rank && rank[a.parent.value] < rank[a.hash])
  }

  lemma {:induction false} RankedReachable(atts: seq<Attestation>, rank: map<string, nat>, a: Attestation)
    requires Ranks(atts, rank) && a in atts
    ensures Reachable(atts, a.hash)
    decreases if a.hash in rank then rank[a.hash] else 0
  {
    assert RankedAbove(atts, rank, a);
    if HasParent(a) {
      var parent := Index(atts)[a.parent.value];
      RankedReachable(atts, rank, parent);
      assert Linked(atts, parent.hash, a.hash);
      ReachableStep(atts, parent.hash, a.hash);
    } else {
      RootReachable(atts, a.hash);
    }
  }

  lemma SameAttestation(atts: seq<Attestation>, a: Attestation, b: Attestation)
    requires Faithful(atts) && a in atts && b in atts && a.hash == b.hash
    ensures a == b
  {
    var i :| 0 <= i < |atts| && atts[i] == a;
    var j :| 0 <= j < |atts| && atts[j] == b;
  }

  ghost predicate Complete(atts: seq<Attestation>) {
    forall a :: a in atts ==> a.hash in Order(atts)
  }

  lemma GroundedIsComplete(atts: seq<Attestation>)
    requires Faithful(atts) && Grounded(atts)
    ensures Complete(atts)
  {
    TraversalIsExact(atts);
    var rank :| Ranks(atts, rank);
    forall a | a in atts
      ensures a.hash in Order(atts)
    {
      RankedReachable(atts, rank, a);
    }
  }

  lemma PositionRanks(atts: seq<Attestation>, rank: map<string, nat>, a: Attestation)
    requires Faithful(atts) && a in atts && a.hash in Order(atts)
    requires forall h :: h in rank <==> h in Order(atts)
    requires forall h :: h in rank ==> rank[h] < |Order(atts)| && Order(atts)[rank[h]] == h
    requires forall k :: 0 <= k < |Order(atts)| ==> rank[Order(atts)[k]] == k
    ensures RankedAbove(atts, rank, a)
  {
    if HasParent(a) {
      var j := ParentBefore(atts, a, rank[a.hash]);
      assert rank[Order(atts)[j]] == j;
    }
  }

  lemma CompleteIsGrounded(atts: seq<Attestation>)
    requires Faithful(atts) && Complete(atts)
    ensures Grounded(atts)
  {
    TraversalIsExact(atts);
    var rank := PositionRank(Order(atts));
    forall a | a in atts
      ensures RankedAbove(atts, rank, a)
    {
      PositionRanks(atts, rank, a);
    }
    assert Ranks(atts, rank);
  }

  /**
    No attestation is missed exactly when every parent resolves without a cycle. The validator
    itself never checks this: attestations outside the traversal are not reported.
  */
  lemma CompleteIffGrounded(atts: seq<Attestation>)
    requires Faithful(atts)
    ensures Complete(atts) <==> Grounded(atts)
  {
    if Grounded(atts) {
      GroundedIsComplete(atts);
    }
    if Complete(atts) {
      CompleteIsGrounded(atts);
    }
  }

  ghost function PositionRank(order: seq<Digest>): (rank: map<string, nat>)
    requires DistinctOrder(order)
    ensures forall h :: h in rank <==> h in order
    ensures forall h :: h in rank ==> rank[h] < |order| && order[rank[h]] == h
    ensures forall k :: 0 <= k < |order| ==> rank[order[k]] == k
  {
    if order == [] then map[]
    else
      var front := order[..|order| - 1];
      assert order == front + [order[|order| - 1]];
      PositionRank(front)[order[|order| - 1] := |order| - 1]
  }

  lemma NotRoot(atts: seq<Attestation>, a: Attestation)
    requires Faithful(atts) && a in atts && HasParent(a)
    ensures !IsRoot(atts, a.hash)
  {
    forall b | b in atts && b.hash == a.hash
      ensures HasParent(b)
    {
      SameAttestation(atts, a, b);
    }
  }

  lemma ParentBefore(atts: seq<Attestation>, a: Attestation, k: nat) returns (j: nat)
    requires Faithful(atts) && a in atts && HasParent(a)
    requires k < |Order(atts)| && Order(atts)[k] == a.hash
    ensures j < k && Order(atts)[j] == a.parent.value && a.parent.value in Index(atts)
  {
    TraversalIsExact(atts);
    var order := Order(atts);
    NotRoot(atts, a);
    j :| 0 <= j < k && Linked(atts, order[j], order[k]);
    var b :| b in atts && b.hash == order[k] && HasParent(b) && b.parent.value == order[j];
    SameAttestation(atts, a, b);
    VisitExplores(atts, true, HashesOf(Genesis(atts)), 0, Walk([], BLANK));
  }

  /**
    A gap goes unnoticed: beside any verified genesis attestation, a verified one whose parent is
    missing (or is itself) is never visited, and the verdict is valid in every mode.
  */
  lemma GapUnreported(genesis: Attestation, orphan: Attestation, strictMode: bool, allowForks: bool)
    requires genesis.verified && orphan.verified && !HasParent(genesis) && HasParent(orphan)
    requires orphan.parent.value != genesis.hash && orphan.hash != genesis.hash
    ensures var atts := [genesis, orphan];
      var r := Verdict(atts, strictMode, allowForks);
      r.valid && r.errors == [] && r.warnings == [] && orphan.hash !in Order(atts)
  {
    var atts := [genesis, orphan];
    PairShape(genesis, orphan);
    LoneRoot(atts, genesis, allowForks);
    LoneRoot(atts, genesis, true);
    assert BLANK.(warnings := []) == BLANK;
    assert Traversed(atts, allowForks, BLANK).result.versions == [genesis.version];
  }

  lemma PairShape(genesis: Attestation, orphan: Attestation)
    requires !HasParent(genesis) && HasParent(orphan)
    requires orphan.parent.value != genesis.hash && orphan.hash != genesis.hash
    ensures Genesis([genesis, orphan]) == [genesis]
    ensures ChildrenOf([genesis, orphan], genesis.hash) == []
    ensures var index := Index([genesis, orphan]); genesis.hash in index && index[genesis.hash] == genesis
  {
    var atts := [genesis, orphan];
    assert atts[..1] == [genesis] && [genesis][..0] == [];
    assert Genesis([genesis]) == [] + [genesis];
    assert Genesis(atts) == Genesis([genesis]) + [];
    assert ChildrenOf([genesis], genesis.hash) == [] + [];
    assert ChildrenOf(atts, genesis.hash) == ChildrenOf([genesis], genesis.hash) + [];
    assert genesis in atts;
  }

  lemma LoneRoot(atts: seq<Attestation>, g: Attestation, allowForks: bool)
    requires Genesis(atts) == [g] && ChildrenOf(atts, g.hash) == []
    requires g.hash in Index(atts) && Index(atts)[g.hash] == g
    ensures Traversed(atts, allowForks, BLANK) == Walk([g.hash], Note(atts, allowForks, g, 0, BLANK))
  {
    var w := Walk([], BLANK);
    assert HashesOf([g]) == [g.hash];
    VisitOne(atts, allowForks, g, 0, w);
    assert w.order + [g.hash] == [g.hash];
  }

  // ---- Versions along the chain ----

  lemma {:induction false} VersionAt(atts: seq<Attestation>, k: nat)
    requires k < |atts|
    ensures |VersionsOf(atts)| == |atts| && VersionsOf(atts)[k] == atts[k].version
  {
    if k < |atts| - 1 {
      VersionAt(atts[..|atts| - 1], k);
    } else if |atts| > 1 {
      VersionAt(atts[..|atts| - 1], 0);
    }
  }

  lemma OrderIncreases(atts: seq<Attestation>, order: seq<Digest>, i: nat, k: nat)
    requires forall h :: h in order ==> h in Index(atts)
    requires StrictlyIncreasing(VersionsOf(AttsOf(atts, order))) && i < k < |order|
    ensures CompareVersions(Index(atts)[order[i]].version, Index(atts)[order[k]].version) < 0
  {
    VersionAt(AttsOf(atts, order), i);
    VersionAt(AttsOf(atts, order), k);
  }

  /** If the version check passes, every reachable descendant is newer than each of its ancestors. */
  lemma DescendantsAreNewer(atts: seq<Attestation>, allowForks: bool, warnings: seq<ChainWarning>, a: Attestation,
      d: Attestation)
    requires Faithful(atts) && a in atts && d in atts
    requires Reachable(atts, a.hash) && Descends(atts, a.hash, d.hash)
    requires StrictlyIncreasing(Traversed(atts, allowForks, BLANK.(warnings := warnings)).result.versions)
    ensures CompareVersions(a.version, d.version) < 0
  {
    TraversalReport(atts, allowForks, warnings);
    TraversalIsExact(atts);
    var order := Order(atts);
    var p :| LinkPath(atts, p) && |p| >= 2 && p[0] == a.hash && p[|p| - 1] == d.hash;
    var i :| 0 <= i < |order| && order[i] == a.hash;
    var k := PathForward(atts, p, |p| - 1, i);
    OrderIncreases(atts, order, i, k);
    SameAttestation(atts, Index(atts)[a.hash], a);
    SameAttestation(atts, Index(atts)[d.hash], d);
  }

  /** Following links goes forward in the visiting order. */
  lemma {:induction false} PathForward(atts: seq<Attestation>, p: seq<string>, n: nat, i: nat) returns (k: nat)
    requires Faithful(atts) && LinkPath(atts, p) && n < |p| && i < |Order(atts)| && Order(atts)[i] == p[0]
    ensures k < |Order(atts)| && Order(atts)[k] == p[n] && (if n == 0 then k == i else i < k)
  {
    if n == 0 {
      return i;
    }
    var before := PathForward(atts, p, n - 1, i);
    TraversalIsExact(atts);
    var order := Order(atts);
    assert Linked(atts, p[n - 1], p[n]);
    ReachableStep(atts, p[n - 1], p[n]);
    k :| 0 <= k < |order| && order[k] == p[n];
    var a :| a in atts && a.hash == p[n] && HasParent(a) && a.parent.value == p[n - 1];
    var j := ParentBefore(atts, a, k);
    assert order[j] == order[before];
  }

  // ---- The two validators on linear chains ----

  /** A linear chain from a parentless start repeats no digest. */
  lemma {:induction false} LinearDistinct(atts: seq<Attestation>, i: nat, j: nat)
    requires Faithful(atts) && Linear(atts) && i < j < |atts| && !HasParent(atts[0])
    ensures atts[i].hash != atts[j].hash
  {
    if atts[i].hash == atts[j].hash {
      assert atts[i] == atts[j];
      assert atts[j].parent == Some(atts[j - 1].hash);
      if i > 0 {
        assert atts[i].parent == Some(atts[i - 1].hash);
        LinearDistinct(atts, i - 1, j - 1);
      }
    }
  }

  lemma {:induction false} LinearChildren(atts: seq<Attestation>, n: nat, i: nat)
    requires Faithful(atts) && Linear(atts) && atts != [] && !HasParent(atts[0])
    requires n <= |atts| && i < |atts|
    ensures ChildrenOf(atts[..n], atts[i].hash) == if i + 1 < n then [atts[i + 1].hash] else []
  {
    if n > 0 {
      assert atts[..n][..n - 1] == atts[..n - 1];
      LinearChildren(atts, n - 1, i);
      if n - 1 > 0 {
        assert atts[n - 1].parent == Some(atts[n - 2].hash);
        if n - 2 < i {
          LinearDistinct(atts, n - 2, i);
        } else if i < n - 2 {
          LinearDistinct(atts, i, n - 2);
        }
      }
    }
  }

  lemma {:induction false} LinearGenesis(atts: seq<Attestation>, n: nat)
    requires Linear(atts) && 0 < n <= |atts| && !HasParent(atts[0])
    ensures Genesis(atts[..n]) == [atts[0]]
  {
    assert atts[..n][..n - 1] == atts[..n - 1];
    if n > 1 {
      assert atts[n - 1].parent == Some(atts[n - 2].hash);
      LinearGenesis(atts, n - 1);
    } else {
      assert Genesis(atts[..0]) == [];
    }
  }

  lemma {:induction false} LinearVisit(atts: seq<Attestation>, hashes: seq<Digest>, i: nat, depth: nat, w: Walk)
    requires Faithful(atts) && Linear(atts) && i < |atts| && !HasParent(atts[0])
    requires hashes == HashesOf(atts) && w.order == hashes[..i]
    ensures VisitAll(atts, true, [atts[i].hash], depth, w).order == hashes
    decreases |atts| - i
  {
    var next := LinearStepVisit(atts, i, depth, w);
    SliceSnoc(hashes, i);
    if i + 1 < |atts| {
      LinearVisit(atts, hashes, i + 1, depth + 1, next);
    } else {
      VisitNone(atts, depth + 1, next);
      assert hashes[..|atts|] == hashes;
    }
  }

  lemma LinearStepVisit(atts: seq<Attestation>, i: nat, depth: nat, w: Walk) returns (next: Walk)
    requires Faithful(atts) && Linear(atts) && i < |atts| && !HasParent(atts[0])
    requires w.order == HashesOf(atts)[..i]
    ensures next.order == w.order + [atts[i].hash]
    ensures VisitAll(atts, true, [atts[i].hash], depth, w)
         == VisitAll(atts, true, if i + 1 < |atts| then [atts[i + 1].hash] else [], depth + 1, next)
  {
    LinearUnseen(atts, i);
    VisitOne(atts, true, atts[i], depth, w);
    LinearChildren(atts, |atts|, i);
    assert atts[..|atts|] == atts;
    next := Walk(w.order + [atts[i].hash], Note(atts, true, atts[i], depth, w.result));
  }

  lemma VisitNone(atts: seq<Attestation>, depth: nat, w: Walk)
    ensures VisitAll(atts, true, [], depth, w) == w
  {
  }

  lemma SliceSnoc(s: seq<Digest>, i: nat)
    requires i < |s|
    ensures s[..i] + [s[i]] == s[..i + 1]
  {
  }

  lemma LinearUnseen(atts: seq<Attestation>, i: nat)
    requires Faithful(atts) && Linear(atts) && i < |atts| && !HasParent(atts[0])
    ensures atts[i].hash !in HashesOf(atts)[..i]
    ensures atts[i].hash in Index(atts) && Index(atts)[atts[i].hash] == atts[i]
  {
    forall k | 0 <= k < i
      ensures atts[k].hash != atts[i].hash
    {
      LinearDistinct(atts, k, i);
    }
    assert atts[i] in atts;
    SameAttestation(atts, Index(atts)[atts[i].hash], atts[i]);
  }

  lemma LinearOrder(atts: seq<Attestation>)
    requires Faithful(atts) && Linear(atts) && atts != [] && !HasParent(atts[0])
    ensures Genesis(atts) == [atts[0]] && Order(atts) == HashesOf(atts)
  {
    LinearGenesis(atts, |atts|);
    assert atts[..|atts|] == atts;
    assert HashesOf([atts[0]]) == [atts[0].hash];
    assert HashesOf(atts)[..0] == [];
    LinearVisit(atts, HashesOf(atts), 0, 0, Walk([], BLANK));
  }

  lemma {:induction false} LinearNoForks(atts: seq<Attestation>, n: nat)
    requires Faithful(atts) && Linear(atts) && atts != [] && !HasParent(atts[0]) && n <= |atts|
    ensures ForksOf(atts, HashesOf(atts)[..n]) == []
  {
    if n > 0 {
      assert HashesOf(atts)[..n][..n - 1] == HashesOf(atts)[..n - 1];
      LinearNoForks(atts, n - 1);
      LinearChildren(atts, |atts|, n - 1);
      assert atts[..|atts|] == atts;
    }
  }

  /**
    On a linear chain from a parentless start, the traversal reports what the single-path
    validator reports, finds no forks and raises no warning, in every mode.
  */
  lemma LinearAgreement(atts: seq<Attestation>, allowForks: bool)
    requires Faithful(atts) && Linear(atts) && atts != [] && !HasParent(atts[0])
    ensures |Genesis(atts)| == 1
    ensures var r := Traversed(atts, allowForks, BLANK).result;
      && r.valid && r.forks == []
      && r.versions == VersionsOf(atts) && r.authors == AuthorsOf(atts)
      && r.genesisId == atts[0].hash && r.latestId == atts[|atts| - 1].hash
  {
    LinearOrder(atts);
    TraversalReport(atts, allowForks, []);
    assert BLANK.(warnings := []) == BLANK;
    LinearAtts(atts);
    NoForksAlong(atts);
    RecordsAlong(atts, allowForks, Traversed(atts, allowForks, BLANK), HashesOf(atts));
  }

  lemma NoForksAlong(atts: seq<Attestation>)
    requires Faithful(atts) && Linear(atts) && atts != [] && !HasParent(atts[0])
    ensures ForksOf(atts, HashesOf(atts)) == []
  {
    LinearNoForks(atts, |atts|);
    assert HashesOf(atts)[..|atts|] == HashesOf(atts);
  }

  /** What is recorded when the order is that of the attestations themselves. */
  lemma RecordsAlong(atts: seq<Attestation>, allowForks: bool, w: Walk, order: seq<Digest>)
    requires w.order == order != [] && Records(atts, allowForks, w, BLANK)
    requires AttsOf(atts, order) == atts && ForksOf(atts, order) == []
    ensures var r := w.result;
      && r.valid && r.forks == []
      && r.versions == VersionsOf(atts) && r.authors == AuthorsOf(atts)
      && r.genesisId == order[0] && r.latestId == order[|order| - 1]
  {
  }

  lemma LinearAtts(atts: seq<Attestation>)
    requires Faithful(atts) && Linear(atts) && atts != [] && !HasParent(atts[0])
    ensures forall h :: h in HashesOf(atts) ==> h in Index(atts)
    ensures AttsOf(atts, HashesOf(atts)) == atts
  {
    forall i | 0 <= i < |atts|
      ensures HashesOf(atts)[i] in Index(atts) && Index(atts)[HashesOf(atts)[i]] == atts[i]
    {
      LinearUnseen(atts, i);
    }
  }

  /** Running both: a valid single path is a valid chain exactly when its versions strictly increase. */
  method CompareValidators(validator: Validator, atts: seq<Attestation>) returns (path: ChainResult, chain: ChainResult)
    requires Faithful(atts) && atts != [] && !HasParent(atts[0])
    ensures path.valid ==>
      && chain.versions == path.versions && chain.authors == path.authors
      && chain.genesisId == path.genesisId && chain.latestId == path.latestId
      && chain.chainLength == path.chainLength && chain.forks == [] && chain.warnings == []
      && (chain.valid <==> StrictlyIncreasing(path.versions))
  {
    path := validator.ValidateSinglePath(atts);
    chain := validator.ValidateChain(atts);
    if path.valid {
      LinearAgreement(atts, validator.allowForks);
      assert BLANK.(warnings := []) == BLANK;
    }
  }
}
