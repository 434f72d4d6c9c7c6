/**
  Provenance chain validation (`ChainValidator` in chain_validator.py).

  Hashing and signature verification stay uninterpreted: an attestation carries its digest and
  the verifier's verdict. A digest is 64 characters (SHA-256 in hex), so it never equals the
  "genesis" key that the tree uses for roots, nor the empty string.
*/
module ChainValidator {
  import opened Options
  import opened Versions

  type Digest = s: string | |s| == 64 witness seq(64, _ => '0')

  datatype Attestation = Attestation(hash: Digest, parent: Option<string>, version: string,
                                     author: Option<string>, verified: bool, verifyErrors: seq<string>)

  datatype ChainError =
    | EmptyChain
    | NoGenesis
    | Unverified(text: string)
    | VersionOrder(prev: string, curr: string)
    | Fork(at: Digest)
    | Break(position: nat)
    | StrictWarnings

  datatype ChainWarning = MultipleGenesis(count: nat) | GenesisHasParent

  datatype ChainResult = ChainResult(
    valid: bool,
    chainLength: nat,
    genesisId: string,
    latestId: string,
    authors: seq<string>,
    versions: seq<string>,
    forks: seq<Digest>,
    errors: seq<ChainError>,
    warnings: seq<ChainWarning>)

  const BLANK := ChainResult(true, 0, "", "", [], [], [], [], [])

  /** Python's truth value of `parent_attestation`. */
  predicate HasParent(a: Attestation) {
    a.parent.Some? && a.parent.value != ""
  }

  function Genesis(atts: seq<Attestation>): seq<Attestation> {
    if atts == [] then []
    else Genesis(atts[..|atts| - 1]) + if HasParent(atts[|atts| - 1]) then [] else [atts[|atts| - 1]]
  }

  /** The entries of the tree under `key`, in list order. */
  function ChildrenOf(atts: seq<Attestation>, key: string): seq<Digest> {
    if atts == [] then []
    else
      var a := atts[|atts| - 1];
      ChildrenOf(atts[..|atts| - 1], key) + if HasParent(a) && a.parent.value == key then [a.hash] else []
  }

  function Index(atts: seq<Attestation>): (index: map<string, Attestation>)
    ensures forall h :: h in index ==> index[h].hash == h && index[h] in atts
    ensures forall a :: a in atts ==> a.hash in index
  {
    if atts == [] then map[]
    else Index(atts[..|atts| - 1])[atts[|atts| - 1].hash := atts[|atts| - 1]]
  }

  /** Equal digests belong to equal attestations. */
  ghost predicate Faithful(atts: seq<Attestation>) {
    forall i, j :: 0 <= i < |atts| && 0 <= j < |atts| && atts[i].hash == atts[j].hash ==> atts[i] == atts[j]
  }

  // ---- The traversal ----

  datatype Walk = Walk(order: seq<Digest>, result: ChainResult)

  ghost function Seen(w: Walk): set<string> {
    set h | h in w.order
  }

  lemma SeenGrows(v: Walk, w: Walk)
    requires v.order <= w.order
    ensures Seen(v) <= Seen(w)
  {
    forall h | h in v.order
      ensures h in w.order
    {
      var i :| 0 <= i < |v.order| && v.order[i] == h;
      assert w.order[i] == h;
    }
  }

  /** What `visit` notes about one attestation. */
  function Note(atts: seq<Attestation>, allowForks: bool, a: Attestation, depth: nat, r: ChainResult): ChainResult {
    var forked := |ChildrenOf(atts, a.hash)| > 1;
    r.(authors := if a.author.Some? && a.author.value !in r.authors then r.authors + [a.author.value] else r.authors,
       versions := r.versions + [a.version],
       genesisId := if depth == 0 && r.genesisId == "" then a.hash else r.genesisId,
       latestId := a.hash,
       forks := if forked then r.forks + [a.hash] else r.forks,
       errors := if forked && !allowForks then r.errors + [Fork(a.hash)] else r.errors,
       valid := r.valid && (allowForks || !forked))
  }

  /** Visit the nodes of `todo` in turn, each followed by its children. */
  ghost function VisitAll(atts: seq<Attestation>, allowForks: bool, todo: seq<Digest>, depth: nat, w: Walk): (r: Walk)
    ensures w.order <= r.order
    decreases Index(atts).Keys - Seen(w), |todo|
  {
    if todo == [] then w
    else if todo[0] !in Index(atts) || todo[0] in w.order then
      VisitAll(atts, allowForks, todo[1..], depth, w)
    else
      var a := Index(atts)[todo[0]];
      var noted := Walk(w.order + [a.hash], Note(atts, allowForks, a, depth, w.result));
      assert a.hash in Seen(noted) && a.hash !in Seen(w);
      var below := VisitAll(atts, allowForks, ChildrenOf(atts, a.hash), depth + 1, noted);
      SeenGrows(noted, below);
      VisitAll(atts, allowForks, todo[1..], depth, below)
  }

  function HashesOf(atts: seq<Attestation>): (hashes: seq<Digest>)
    ensures |hashes| == |atts|
    ensures forall i :: 0 <= i < |atts| ==> hashes[i] == atts[i].hash
  {
    seq(|atts|, i requires 0 <= i < |atts| => atts[i].hash)
  }

  ghost function Traversed(atts: seq<Attestation>, allowForks: bool, r: ChainResult): Walk {
    VisitAll(atts, allowForks, HashesOf(Genesis(atts)), 0, Walk([], r))
  }

  /** The closure state of `_traverse_chain`. */
  class Traversal {
    const tree: map<string, seq<Digest>>
    const index: map<string, Attestation>
    const allowForks: bool
    var visited: set<string>
    var result: ChainResult
    ghost const atts: seq<Attestation>
    ghost var order: seq<Digest>

    /** The constants describe `atts`. */
    ghost predicate Describes() {
      index == Index(atts) && forall h: Digest :: (if h in tree then tree[h] else []) == ChildrenOf(atts, h)
    }

    ghost predicate Valid()
      reads this
    {
      forall h :: h in visited <==> h in order
    }

    constructor (tree: map<string, seq<Digest>>, index: map<string, Attestation>, allowForks: bool, result: ChainResult,
                 ghost atts: seq<Attestation>)
      requires index == Index(atts)
      requires forall h: Digest :: (if h in tree then tree[h] else []) == ChildrenOf(atts, h)
      ensures Valid() && Describes() && this.atts == atts && this.allowForks == allowForks
      ensures order == [] && this.result == result
    {
      this.tree, this.index, this.allowForks, this.result := tree, index, allowForks, result;
      this.atts := atts;
      visited, order := {}, [];
    }

    method Visit(a: Attestation, depth: nat)
      requires Valid() && Describes() && a.hash in index && index[a.hash] == a
      modifies this
      ensures Valid()
      ensures Walk(order, result) == VisitAll(atts, allowForks, [a.hash], depth, old(Walk(order, result)))
      ensures old(visited) <= visited
      decreases index.Keys - visited, 0
    {
      assert [a.hash][1..] == [];
      if a.hash in visited {
        return;
      }
      var children := if a.hash in tree then tree[a.hash] else [];
      assert children == ChildrenOf(atts, a.hash);
      VisitOne(atts, allowForks, a, depth, Walk(order, result));
      Record(a, depth, |children|);
      VisitChildren(children, depth + 1);
    }

    method VisitChildren(children: seq<Digest>, depth: nat)
      requires Valid() && Describes()
      modifies this
      ensures Valid()
      ensures Walk(order, result) == VisitAll(atts, allowForks, children, depth, old(Walk(order, result)))
      ensures old(visited) <= visited
      decreases index.Keys - visited, 1
    {
      for i := 0 to |children|
        invariant Valid() && old(visited) <= visited
        invariant VisitAll(atts, allowForks, children, depth, old(Walk(order, result)))
               == VisitAll(atts, allowForks, children[i..], depth, Walk(order, result))
      {
        VisitSuffix(atts, allowForks, children, i, depth, Walk(order, result));
        if children[i] in index {
          Visit(index[children[i]], depth);
        }
      }
      assert children[|children|..] == [];
    }

    /** The part of `visit` before the children. */
    method Record(a: Attestation, depth: nat, children: nat)
      requires Valid() && a.hash !in visited && children == |ChildrenOf(atts, a.hash)|
      modifies this
      ensures Valid() && visited == old(visited) + {a.hash} && order == old(order) + [a.hash]
      ensures result == Note(atts, allowForks, a, depth, old(result))
    {
      visited := visited + {a.hash};
      order := order + [a.hash];
      if a.author.Some? {
        if a.author.value !in result.authors {
          result := result.(authors := result.authors + [a.author.value]);
        }
      }
      result := result.(versions := result.versions + [a.version]);
      if depth == 0 && result.genesisId == "" {
        result := result.(genesisId := a.hash);
      }
      result := result.(latestId := a.hash);
      if children > 1 {
        result := result.(forks := result.forks + [a.hash]);
        if !allowForks {
          result := result.(errors := result.errors + [Fork(a.hash)], valid := false);
        }
      }
    }

    method VisitGenesis(genesis: seq<Attestation>)
      requires Valid() && Describes() && Faithful(atts) && genesis == Genesis(atts)
      modifies this
      ensures Valid()
      ensures Walk(order, result) == VisitAll(atts, allowForks, HashesOf(genesis), 0, old(Walk(order, result)))
    {
      for i := 0 to |genesis|
        invariant Valid()
        invariant old(VisitAll(atts, allowForks, HashesOf(genesis), 0, Walk(order, result)))
               == VisitAll(atts, allowForks, HashesOf(genesis)[i..], 0, Walk(order, result))
      {
        VisitSuffix(atts, allowForks, HashesOf(genesis), i, 0, Walk(order, result));
        GenesisListed(atts, genesis[i]);
        Visit(genesis[i], 0);
      }
    }
  }

  lemma VisitOne(atts: seq<Attestation>, allowForks: bool, a: Attestation, depth: nat, w: Walk)
    requires a.hash in Index(atts) && Index(atts)[a.hash] == a && a.hash !in w.order
    ensures VisitAll(atts, allowForks, [a.hash], depth, w)
         == VisitAll(atts, allowForks, ChildrenOf(atts, a.hash), depth + 1,
                     Walk(w.order + [a.hash], Note(atts, allowForks, a, depth, w.result)))
  {
    assert [a.hash][1..] == [];
  }

  lemma VisitSuffix(atts: seq<Attestation>, allowForks: bool, todo: seq<Digest>, i: nat, depth: nat, w: Walk)
    requires i < |todo|
    ensures VisitAll(atts, allowForks, todo[i..], depth, w)
         == VisitAll(atts, allowForks, todo[i + 1..], depth, VisitAll(atts, allowForks, [todo[i]], depth, w))
    ensures todo[i] !in Index(atts) ==> VisitAll(atts, allowForks, [todo[i]], depth, w) == w
  {
    assert todo[i..][0] == todo[i] && todo[i..][1..] == todo[i + 1..];
    VisitFirst(atts, allowForks, todo[i..], depth, w);
  }

  lemma VisitFirst(atts: seq<Attestation>, allowForks: bool, todo: seq<Digest>, depth: nat, w: Walk)
    requires todo != []
    ensures VisitAll(atts, allowForks, todo, depth, w)
         == VisitAll(atts, allowForks, todo[1..], depth, VisitAll(atts, allowForks, [todo[0]], depth, w))
    ensures todo[0] !in Index(atts) ==> VisitAll(atts, allowForks, [todo[0]], depth, w) == w
  {
    assert [todo[0]][1..] == [];
  }

  lemma {:induction false} GenesisListed(atts: seq<Attestation>, a: Attestation)
    ensures a in Genesis(atts) <==> a in atts && !HasParent(a)
  {
    if atts != [] {
      var front, last := atts[..|atts| - 1], atts[|atts| - 1];
      assert atts == front + [last];
      GenesisListed(front, a);
    }
  }

  // ---- The validator ----

  function VerifyErrors(atts: seq<Attestation>): seq<ChainError> {
    if atts == [] then []
    else
      var a := atts[|atts| - 1];
      VerifyErrors(atts[..|atts| - 1]) + if a.verified then [] else Texts(a.verifyErrors)
  }

  function Texts(errors: seq<string>): seq<ChainError> {
    seq(|errors|, i requires 0 <= i < |errors| => Unverified(errors[i]))
  }

  ghost predicate AllVerified(atts: seq<Attestation>) {
    forall i :: 0 <= i < |atts| ==> atts[i].verified
  }

  /** What `validate_chain` reports, case by case. */
  ghost function Verdict(atts: seq<Attestation>, strictMode: bool, allowForks: bool): ChainResult {
    var roots := |Genesis(atts)|;
    var found := BLANK.(warnings := if roots > 1 then [MultipleGenesis(roots)] else []);
    if atts == [] then BLANK.(valid := false, errors := [EmptyChain])
    else if roots == 0 then BLANK.(valid := false, errors := [NoGenesis])
    else if !AllVerified(atts) then found.(valid := false, errors := VerifyErrors(atts))
    else Judged(Traversed(atts, allowForks, found).result, strictMode, |atts|)
  }

  /** The checks after the traversal: version order, then strict mode. */
  function Judged(walked: ChainResult, strictMode: bool, length: nat): ChainResult {
    var drop := FirstDrop(walked.versions);
    var strict := strictMode && walked.warnings != [];
    walked.(valid := walked.valid && drop.None? && !strict,
            errors := walked.errors
                      + (if drop.Some? then [VersionOrder(drop.value.0, drop.value.1)] else [])
                      + (if strict then [StrictWarnings] else []),
            chainLength := length)
  }

  /** The verdict read off case by case, with the version check as strict increase over all pairs. */
  lemma VerdictMeaning(atts: seq<Attestation>, strictMode: bool, allowForks: bool)
    ensures var r := Verdict(atts, strictMode, allowForks);
      var roots := |Genesis(atts)|;
      && (atts == [] ==> r == BLANK.(valid := false, errors := [EmptyChain]))
      && (atts != [] && roots == 0 ==> r == BLANK.(valid := false, errors := [NoGenesis]))
      && (atts != [] && roots > 0 ==> r.warnings == if roots > 1 then [MultipleGenesis(roots)] else [])
      && (atts != [] && roots > 0 && !AllVerified(atts) ==>
            !r.valid && r.errors == VerifyErrors(atts) && r.versions == [])
      && (r.valid ==> atts != [] && roots > 0 && AllVerified(atts))
    ensures atts != [] && Genesis(atts) != [] && AllVerified(atts) ==>
      var r := Verdict(atts, strictMode, allowForks);
      var walked := Traversed(atts, allowForks, BLANK.(warnings := r.warnings)).result;
      && r == walked.(valid := r.valid, errors := r.errors, chainLength := |atts|)
      && (r.valid <==> walked.valid && StrictlyIncreasing(walked.versions) && !(strictMode && r.warnings != []))
      && walked.errors <= r.errors
  {
    if atts != [] && Genesis(atts) != [] && AllVerified(atts) {
      var roots := |Genesis(atts)|;
      var start := BLANK.(warnings := if roots > 1 then [MultipleGenesis(roots)] else []);
      NeverEmpty(atts, allowForks, start);
      NoDropIsIncreasing(Traversed(atts, allowForks, start).result.versions);
    }
  }

  class Validator {
    const strictMode: bool
    const allowForks: bool

    constructor (strictMode: bool, allowForks: bool)
      ensures this.strictMode == strictMode && this.allowForks == allowForks
    {
      this.strictMode, this.allowForks := strictMode, allowForks;
    }

    /**
      The verdict on a chain. The version check always has a sequence to look at: reaching it
      means a genesis attestation was visited.
    */
    method ValidateChain(atts: seq<Attestation>) returns (r: ChainResult)
      requires Faithful(atts)
      ensures r == Verdict(atts, strictMode, allowForks)
      ensures atts == [] ==> r == BLANK.(valid := false, errors := [EmptyChain])
      ensures atts != [] && Genesis(atts) == [] ==> r == BLANK.(valid := false, errors := [NoGenesis])
      ensures atts != [] && Genesis(atts) != [] && !AllVerified(atts) ==>
        !r.valid && r.errors == VerifyErrors(atts) && r.versions == []
      ensures atts != [] && Genesis(atts) != [] && AllVerified(atts) ==>
        var walked := Traversed(atts, allowForks, BLANK.(warnings := r.warnings)).result;
        && r.warnings == (if |Genesis(atts)| > 1 then [MultipleGenesis(|Genesis(atts)|)] else [])
        && r == walked.(valid := r.valid, errors := r.errors, chainLength := |atts|)
        && (r.valid <==> walked.valid && StrictlyIncreasing(walked.versions) && !(strictMode && r.warnings != []))
        && walked.errors <= r.errors
      ensures r.valid ==> atts != [] && Genesis(atts) != [] && AllVerified(atts)
    {
      r := Judge(atts);
      VerdictMeaning(atts, strictMode, allowForks);
    }

    method Judge(atts: seq<Attestation>) returns (r: ChainResult)
      requires Faithful(atts)
      ensures r == Verdict(atts, strictMode, allowForks)
    {
      r := BLANK;
      if atts == [] {
        return r.(valid := false, errors := [EmptyChain]);
      }
      var index := Index(atts);
      var genesis := Genesis(atts);
      if |genesis| == 0 {
        return r.(valid := false, errors := [NoGenesis]);
      }
      if |genesis| > 1 {
        r := r.(warnings := [MultipleGenesis(|genesis|)]);
      }
      r := VerifyAll(atts, r);
      if !r.valid {
        return;
      }
      assert r == BLANK.(warnings := r.warnings);
      NeverEmpty(atts, allowForks, r);
      r := Traverse(atts, index, genesis, r);
      r := Conclude(r, |atts|);
    }

    /** The checks after the traversal. An empty version list would leave the first check undecided. */
    method Conclude(walked: ChainResult, length: nat) returns (r: ChainResult)
      requires walked.versions != []
      ensures r == Judged(walked, strictMode, length)
    {
      r := walked;
      var increasing;
      var error;
      if r.versions != [] {
        increasing, error := IsVersionSequenceValid(r.versions);
      }
      if !increasing {
        r := r.(valid := false);
        if error.Some? {
          r := r.(errors := r.errors + [VersionOrder(error.value.0, error.value.1)]);
        }
      }
      if strictMode && r.warnings != [] {
        r := r.(valid := false, errors := r.errors + [StrictWarnings]);
      }
      r := r.(chainLength := length);
    }

    method VerifyAll(atts: seq<Attestation>, start: ChainResult) returns (r: ChainResult)
      requires start.valid && start.errors == []
      ensures r == start.(valid := r.valid, errors := VerifyErrors(atts))
      ensures r.valid <==> AllVerified(atts)
      ensures r.valid ==> r.errors == []
    {
      r := start;
      for i := 0 to |atts|
        invariant r == start.(valid := r.valid, errors := VerifyErrors(atts[..i]))
        invariant r.valid <==> AllVerified(atts[..i])
        invariant r.valid ==> r.errors == []
      {
        assert atts[..i + 1][..i] == atts[..i];
        if !atts[i].verified {
          assert !atts[..i + 1][i].verified;
          r := r.(valid := false, errors := r.errors + Texts(atts[i].verifyErrors));
        }
      }
      assert atts[..|atts|] == atts;
    }

    method Traverse(atts: seq<Attestation>, index: map<string, Attestation>, genesis: seq<Attestation>,
        start: ChainResult)
      returns (r: ChainResult)
      requires Faithful(atts) && index == Index(atts) && genesis == Genesis(atts)
      ensures r == Traversed(atts, allowForks, start).result
    {
      var tree := BuildChainTree(atts);
      var traversal := new Traversal(tree, index, allowForks, start, atts);
      traversal.VisitGenesis(genesis);
      return traversal.result;
    }

    method BuildChainTree(atts: seq<Attestation>) returns (tree: map<string, seq<Digest>>)
      ensures forall h: Digest :: (if h in tree then tree[h] else []) == ChildrenOf(atts, h)
    {
      tree := map[];
      for i := 0 to |atts|
        invariant forall h: Digest :: (if h in tree then tree[h] else []) == ChildrenOf(atts[..i], h)
      {
        ghost var front := atts[..i];
        assert atts[..i + 1] == front + [atts[i]];
        var a := atts[i];
        var key := if HasParent(a) then a.parent.value else "genesis";
        ghost var before := tree;
        tree := tree[key := (if key in tree then tree[key] else []) + [a.hash]];
        forall h: Digest
          ensures (if h in tree then tree[h] else []) == ChildrenOf(front + [a], h)
        {
          ChildrenStep(front, a, h);
          assert (if h in before then before[h] else []) == ChildrenOf(front, h);
        }
      }
      assert atts[..|atts|] == atts;
    }

    /** A linear path: each attestation must name the previous one's digest as its parent. */
    method ValidateSinglePath(atts: seq<Attestation>) returns (r: ChainResult)
      ensures atts == [] ==> r == BLANK.(valid := false, errors := [EmptyChain])
      ensures atts != [] ==>
        && (r.valid <==> AllVerified(atts) && Linear(atts))
        && r.errors == PathErrors(atts)
        && r.versions == VersionsOf(atts) && r.authors == AuthorsOf(atts)
        && r.genesisId == atts[0].hash && r.latestId == atts[|atts| - 1].hash
        && r.chainLength == |atts| && r.forks == []
        && r.warnings == (if HasParent(atts[0]) then [GenesisHasParent] else [])
    {
      r := BLANK;
      if atts == [] {
        return r.(valid := false, errors := [EmptyChain]);
      }
      var prevHash: Option<string> := None;
      assert atts[..0] == [];
      for i := 0 to |atts|
        invariant PathSoFar(atts[..i], r)
        invariant i > 0 ==> prevHash == Some(atts[i - 1].hash)
      {
        ghost var front := atts[..i];
        assert atts[..i + 1] == front + [atts[i]];
        assert i > 0 ==> front[|front| - 1] == atts[i - 1];
        ghost var before := r;
        r := CheckLink(i, atts[i], prevHash, r);
        prevHash := Some(atts[i].hash);
        PathStep(front, atts[i], before, r);
      }
      assert atts[..|atts|] == atts && PathSoFar(atts, r);
      r := r.(genesisId := atts[0].hash, latestId := atts[|atts| - 1].hash, chainLength := |atts|);
    }

    /** The checks on the attestation at one position of the path. */
    method CheckLink(i: nat, a: Attestation, prevHash: Option<string>, r: ChainResult) returns (next: ChainResult)
      ensures next.valid <==> r.valid && a.verified && (i > 0 ==> a.parent == prevHash)
      ensures next.errors == r.errors + (if a.verified then [] else Texts(a.verifyErrors))
                             + (if i > 0 && a.parent != prevHash then [Break(i)] else [])
      ensures next.warnings == r.warnings + if i == 0 && HasParent(a) then [GenesisHasParent] else []
      ensures next.versions == r.versions + [a.version]
      ensures next.authors == if a.author.Some? && a.author.value !in r.authors then r.authors + [a.author.value]
                              else r.authors
      ensures next == r.(valid := next.valid, errors := next.errors, warnings := next.warnings,
                         versions := next.versions, authors := next.authors)
    {
      next := r;
      if !a.verified {
        next := next.(valid := false, errors := next.errors + Texts(a.verifyErrors));
      }
      if i == 0 {
        if HasParent(a) {
          next := next.(warnings := next.warnings + [GenesisHasParent]);
        }
      } else if a.parent != prevHash {
        next := next.(valid := false, errors := next.errors + [Break(i)]);
      }
      next := next.(versions := next.versions + [a.version]);
      if a.author.Some? && a.author.value !in next.authors {
        next := next.(authors := next.authors + [a.author.value]);
      }
    }
  }

  ghost predicate Linear(atts: seq<Attestation>) {
    forall i :: 1 <= i < |atts| ==> atts[i].parent == Some(atts[i - 1].hash)
  }

  lemma ChildrenStep(front: seq<Attestation>, a: Attestation, key: string)
    ensures ChildrenOf(front + [a], key)
         == ChildrenOf(front, key) + if HasParent(a) && a.parent.value == key then [a.hash] else []
  {
    assert (front + [a])[..|front|] == front;
  }

  predicate Broken(atts: seq<Attestation>, k: nat) {
    1 <= k < |atts| && atts[k].parent != Some(atts[k - 1].hash)
  }

  /** In list order: the verifier's texts, then the break if there is one. */
  function PathErrors(atts: seq<Attestation>): seq<ChainError> {
    if atts == [] then []
    else
      var last := |atts| - 1;
      PathErrors(atts[..last])
      + (if atts[last].verified then [] else Texts(atts[last].verifyErrors))
      + (if Broken(atts, last) then [Break(last)] else [])
  }

  lemma PathErrorsAppend(front: seq<Attestation>, a: Attestation)
    ensures PathErrors(front + [a]) == PathErrors(front)
      + (if a.verified then [] else Texts(a.verifyErrors))
      + (if front != [] && a.parent != Some(front[|front| - 1].hash) then [Break(|front|)] else [])
  {
    var all := front + [a];
    assert all[..|front|] == front && all[|front|] == a;
    assert front != [] ==> all[|front| - 1] == front[|front| - 1];
  }

  /** A break is reported at a position exactly when the attestation there names another parent. */
  lemma {:induction false} BreaksReported(atts: seq<Attestation>, k: nat)
    ensures Break(k) in PathErrors(atts) <==> Broken(atts, k)
  {
    if atts != [] {
      var last := |atts| - 1;
      BreaksReported(atts[..last], k);
      assert Broken(atts[..last], k) <==> Broken(atts, k) && k < last;
    }
  }

  /** What `ValidateSinglePath` has found after the attestations in `front`. */
  ghost predicate PathSoFar(front: seq<Attestation>, r: ChainResult) {
    && (r.valid <==> AllVerified(front) && Linear(front))
    && r.errors == PathErrors(front)
    && r.versions == VersionsOf(front) && r.authors == AuthorsOf(front)
    && r.genesisId == "" && r.latestId == "" && r.chainLength == 0 && r.forks == []
    && r.warnings == if front != [] && HasParent(front[0]) then [GenesisHasParent] else []
  }

  lemma PathStep(front: seq<Attestation>, a: Attestation, before: ChainResult, r: ChainResult)
    requires PathSoFar(front, before)
    requires r.valid <==> before.valid && a.verified && (front != [] ==> a.parent == Some(front[|front| - 1].hash))
    requires r.versions == before.versions + [a.version]
    requires r.authors == if a.author.Some? && a.author.value !in before.authors
                          then before.authors + [a.author.value] else before.authors
    requires r.errors == before.errors + (if a.verified then [] else Texts(a.verifyErrors))
                         + (if front != [] && a.parent != Some(front[|front| - 1].hash) then [Break(|front|)] else [])
    requires r.warnings == before.warnings + if front == [] && HasParent(a) then [GenesisHasParent] else []
    requires r == before.(valid := r.valid, errors := r.errors, warnings := r.warnings,
                          versions := r.versions, authors := r.authors)
    ensures PathSoFar(front + [a], r)
  {
    LinearStep(front, a);
    PathErrorsAppend(front, a);
    VersionsAppend(front, a);
    AuthorsAppend(front, a);
  }

  lemma LinearStep(front: seq<Attestation>, a: Attestation)
    ensures Linear(front + [a]) <==> Linear(front) && (front != [] ==> a.parent == Some(front[|front| - 1].hash))
    ensures AllVerified(front + [a]) <==> AllVerified(front) && a.verified
  {
    var all := front + [a];
    if Linear(all) {
      assert forall i :: 0 <= i < |front| ==> all[i] == front[i];
      forall i | 1 <= i < |front|
        ensures front[i].parent == Some(front[i - 1].hash)
      {
        assert all[i].parent == Some(all[i - 1].hash);
      }
      assert front != [] ==> all[|front|].parent == Some(all[|front| - 1].hash);
    }
    if AllVerified(all) {
      forall i | 0 <= i < |front|
        ensures front[i].verified
      {
        assert all[i].verified;
      }
      assert all[|front|].verified;
    }
  }

  function VersionsOf(atts: seq<Attestation>): seq<string> {
    if atts == [] then [] else VersionsOf(atts[..|atts| - 1]) + [atts[|atts| - 1].version]
  }

  /** Squad ids in order of first appearance. */
  function AuthorsOf(atts: seq<Attestation>): seq<string> {
    if atts == [] then []
    else
      var before := AuthorsOf(atts[..|atts| - 1]);
      var a := atts[|atts| - 1];
      if a.author.Some? && a.author.value !in before then before + [a.author.value] else before
  }

  lemma VersionsAppend(atts: seq<Attestation>, a: Attestation)
    ensures VersionsOf(atts + [a]) == VersionsOf(atts) + [a.version]
  {
    assert (atts + [a])[..|atts|] == atts;
  }

  lemma AuthorsAppend(atts: seq<Attestation>, a: Attestation)
    ensures AuthorsOf(atts + [a]) ==
      if a.author.Some? && a.author.value !in AuthorsOf(atts)
      then AuthorsOf(atts) + [a.author.value] else AuthorsOf(atts)
  {
    assert (atts + [a])[..|atts|] == atts;
  }

  lemma {:induction false} VersionsGrow(atts: seq<Attestation>, allowForks: bool, todo: seq<Digest>, depth: nat,
      w: Walk)
    ensures |VisitAll(atts, allowForks, todo, depth, w).result.versions| - |w.result.versions|
         == |VisitAll(atts, allowForks, todo, depth, w).order| - |w.order|
    ensures VisitAll(atts, allowForks, todo, depth, w).result.warnings == w.result.warnings
    decreases Index(atts).Keys - Seen(w), |todo|
  {
    if todo != [] {
      if todo[0] !in Index(atts) || todo[0] in w.order {
        VersionsGrow(atts, allowForks, todo[1..], depth, w);
      } else {
        var a := Index(atts)[todo[0]];
        var noted := Walk(w.order + [a.hash], Note(atts, allowForks, a, depth, w.result));
        assert a.hash in Seen(noted) && a.hash !in Seen(w);
        VersionsGrow(atts, allowForks, ChildrenOf(atts, a.hash), depth + 1, noted);
        var below := VisitAll(atts, allowForks, ChildrenOf(atts, a.hash), depth + 1, noted);
        SeenGrows(noted, below);
        VersionsGrow(atts, allowForks, todo[1..], depth, below);
      }
    }
  }

  lemma NeverEmpty(atts: seq<Attestation>, allowForks: bool, r: ChainResult)
    requires Genesis(atts) != [] && r.versions == []
    ensures Traversed(atts, allowForks, r).result.versions != []
    ensures Traversed(atts, allowForks, r).result.warnings == r.warnings
  {
    var genesis := Genesis(atts);
    GenesisListed(atts, genesis[0]);
    VersionsGrow(atts, allowForks, HashesOf(genesis), 0, Walk([], r));
    assert HashesOf(genesis)[0] in Index(atts);
  }

  // ---- What the reports contain ----

  ghost predicate Refused(atts: seq<Attestation>, text: string) {
    exists i :: 0 <= i < |atts| && !atts[i].verified && text in atts[i].verifyErrors
  }

  lemma TextsMembers(errors: seq<string>, text: string)
    ensures Unverified(text) in Texts(errors) <==> text in errors
  {
    if text in errors {
      var i :| 0 <= i < |errors| && errors[i] == text;
      assert Texts(errors)[i] == Unverified(text);
    }
  }

  lemma RefusedLast(atts: seq<Attestation>, text: string)
    requires atts != []
    ensures var last := atts[|atts| - 1];
      Refused(atts, text) <==> Refused(atts[..|atts| - 1], text) || (!last.verified && text in last.verifyErrors)
  {
    var front := atts[..|atts| - 1];
    assert forall i :: 0 <= i < |front| ==> front[i] == atts[i];
    if i :| 0 <= i < |front| && !front[i].verified && text in front[i].verifyErrors {
      assert !atts[i].verified && text in atts[i].verifyErrors;
    }
  }

  /** Both validators report exactly what the verifier said about the attestations it refused. */
  lemma {:induction false} RefusalsReported(atts: seq<Attestation>, text: string)
    ensures Unverified(text) in VerifyErrors(atts) <==> Refused(atts, text)
    ensures Unverified(text) in PathErrors(atts) <==> Refused(atts, text)
  {
    if atts != [] {
      var last := atts[|atts| - 1];
      RefusalsReported(atts[..|atts| - 1], text);
      TextsMembers(last.verifyErrors, text);
      RefusedLast(atts, text);
    }
  }

  /** The authors reported are the squads of the attestations, each once. */
  lemma {:induction false} AuthorsMeaning(atts: seq<Attestation>, squad: string)
    ensures squad in AuthorsOf(atts) <==> exists i :: 0 <= i < |atts| && atts[i].author == Some(squad)
    ensures forall i, j :: 0 <= i < j < |AuthorsOf(atts)| ==> AuthorsOf(atts)[i] != AuthorsOf(atts)[j]
  {
    if atts != [] {
      var front := atts[..|atts| - 1];
      AuthorsMeaning(front, squad);
      assert forall i :: 0 <= i < |front| ==> front[i] == atts[i];
    }
  }
}
