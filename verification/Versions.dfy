/** Version strings and their order (`compare_versions`, `is_version_sequence_valid` in chain_validator.py). */
module Versions {
  import opened Options

  // ---- Parsing: `v.lstrip("v").split(".")`, keeping the parts that are all digits ----

  function StripV(v: string): string {
    if v != "" && v[0] == 'v' then StripV(v[1..]) else v
  }

  /** The parts of `s` between dots, with `part` already read. */
  function Split(part: string, s: string): seq<string>
    decreases |s|
  {
    if s == "" then [part]
    else if s[0] == '.' then [part] + Split("", s[1..])
    else Split(part + [s[0]], s[1..])
  }

  predicate IsDigits(s: string) {
    s != "" && forall i :: 0 <= i < |s| ==> '0' <= s[i] <= '9'
  }

  function ToNat(s: string): nat
    requires forall i :: 0 <= i < |s| ==> '0' <= s[i] <= '9'
  {
    if s == "" then 0
    else 10 * ToNat(s[..|s| - 1]) + (s[|s| - 1] as int - '0' as int)
  }

  function Numbers(parts: seq<string>): seq<nat> {
    if parts == [] then []
    else (if IsDigits(parts[0]) then [ToNat(parts[0])] else []) + Numbers(parts[1..])
  }

  function Parse(v: string): seq<nat> {
    Numbers(Split("", StripV(v)))
  }

  // ---- Comparison ----

  function Pad(p: seq<nat>, length: nat): seq<nat> {
    p + seq(if |p| < length then length - |p| else 0, _ => 0)
  }

  /** Python's order on tuples. */
  predicate TupleLess(p: seq<nat>, q: seq<nat>) {
    if q == [] then false
    else if p == [] then true
    else if p[0] != q[0] then p[0] < q[0]
    else TupleLess(p[1..], q[1..])
  }

  function CompareVersions(v1: string, v2: string): int {
    var p1, p2 := Parse(v1), Parse(v2);
    var length := if |p1| < |p2| then |p2| else |p1|;
    if TupleLess(Pad(p1, length), Pad(p2, length)) then -1
    else if TupleLess(Pad(p2, length), Pad(p1, length)) then 1
    else 0
  }

  // ---- What the comparison means: position by position, absent numbers reading as 0 ----

  function Number(p: seq<nat>, k: nat): nat {
    if k < |p| then p[k] else 0
  }

  ghost predicate SmallerAt(p: seq<nat>, q: seq<nat>, k: nat) {
    Number(p, k) < Number(q, k) && forall j :: 0 <= j < k ==> Number(p, j) == Number(q, j)
  }

  ghost predicate Smaller(p: seq<nat>, q: seq<nat>) {
    exists k :: SmallerAt(p, q, k)
  }

  ghost predicate SameNumbers(p: seq<nat>, q: seq<nat>) {
    forall k :: Number(p, k) == Number(q, k)
  }

  lemma {:induction false} TupleLessMeaning(p: seq<nat>, q: seq<nat>)
    requires |p| == |q|
    ensures TupleLess(p, q) <==> Smaller(p, q)
  {
    if p != [] {
      TupleLessMeaning(p[1..], q[1..]);
      if p[0] == q[0] {
        if k: nat :| SmallerAt(p[1..], q[1..], k) {
          forall j | 0 <= j < k + 1
            ensures Number(p, j) == Number(q, j)
          {
            if j > 0 {
              assert Number(p[1..], j - 1) == Number(q[1..], j - 1);
            }
          }
          assert SmallerAt(p, q, k + 1);
        }
        if k: nat :| SmallerAt(p, q, k) {
          assert k > 0;
          forall j | 0 <= j < k - 1
            ensures Number(p[1..], j) == Number(q[1..], j)
          {
            assert Number(p, j + 1) == Number(q, j + 1);
          }
          assert SmallerAt(p[1..], q[1..], k - 1);
        }
      } else if p[0] < q[0] {
        assert SmallerAt(p, q, 0);
      } else {
        assert Number(p, 0) > Number(q, 0);
      }
    }
  }

  lemma PadKeepsNumbers(p: seq<nat>, q: seq<nat>, length: nat)
    ensures Smaller(Pad(p, length), Pad(q, length)) <==> Smaller(p, q)
  {
    assert forall k :: Number(Pad(p, length), k) == Number(p, k);
    assert forall k :: Number(Pad(q, length), k) == Number(q, k);
    if k: nat :| SmallerAt(p, q, k) {
      assert SmallerAt(Pad(p, length), Pad(q, length), k);
    }
    if k: nat :| SmallerAt(Pad(p, length), Pad(q, length), k) {
      assert SmallerAt(p, q, k);
    }
  }

  lemma {:induction false} FirstDifference(p: seq<nat>, q: seq<nat>, k: nat)
    ensures (exists j: nat :: j <= k && (SmallerAt(p, q, j) || SmallerAt(q, p, j)))
         || forall j: nat :: j <= k ==> Number(p, j) == Number(q, j)
  {
    if k > 0 {
      FirstDifference(p, q, k - 1);
    }
    if forall j :: 0 <= j < k ==> Number(p, j) == Number(q, j) {
      assert Number(p, k) == Number(q, k) || SmallerAt(p, q, k) || SmallerAt(q, p, k);
    }
  }

  lemma Trichotomy(p: seq<nat>, q: seq<nat>)
    ensures SameNumbers(p, q) || Smaller(p, q) || Smaller(q, p)
    ensures !(Smaller(p, q) && Smaller(q, p))
    ensures !(SameNumbers(p, q) && Smaller(p, q)) && !(SameNumbers(p, q) && Smaller(q, p))
  {
    if k: nat :| Number(p, k) != Number(q, k) {
      FirstDifference(p, q, k);
    }
  }

  /** Zero padding makes the comparison one of infinite sequences. */
  lemma CompareMeaning(v1: string, v2: string)
    ensures CompareVersions(v1, v2) == -1 <==> Smaller(Parse(v1), Parse(v2))
    ensures CompareVersions(v1, v2) == 1 <==> Smaller(Parse(v2), Parse(v1))
    ensures CompareVersions(v1, v2) == 0 <==> SameNumbers(Parse(v1), Parse(v2))
    ensures -1 <= CompareVersions(v1, v2) <= 1
  {
    var p1, p2 := Parse(v1), Parse(v2);
    var length := if |p1| < |p2| then |p2| else |p1|;
    TupleLessMeaning(Pad(p1, length), Pad(p2, length));
    TupleLessMeaning(Pad(p2, length), Pad(p1, length));
    PadKeepsNumbers(p1, p2, length);
    PadKeepsNumbers(p2, p1, length);
    Trichotomy(p1, p2);
  }

  lemma SmallerChains(p: seq<nat>, q: seq<nat>, r: seq<nat>)
    ensures Smaller(p, q) && Smaller(q, r) ==> Smaller(p, r)
    ensures Smaller(p, q) && SameNumbers(q, r) ==> Smaller(p, r)
    ensures SameNumbers(p, q) && Smaller(q, r) ==> Smaller(p, r)
    ensures SameNumbers(p, q) && SameNumbers(q, r) ==> SameNumbers(p, r)
  {
    if i: nat :| SmallerAt(p, q, i) {
      if j: nat :| SmallerAt(q, r, j) {
        assert SmallerAt(p, r, if i < j then i else j);
      }
      if SameNumbers(q, r) {
        assert SmallerAt(p, r, i);
      }
    }
    if j: nat :| SmallerAt(q, r, j) {
      if SameNumbers(p, q) {
        assert SmallerAt(p, r, j);
      }
    }
  }

  /** A total preorder whose strict part is transitive, although each pair is padded on its own. */
  lemma CompareIsTotalPreorder(a: string, b: string, c: string)
    ensures CompareVersions(a, b) == -CompareVersions(b, a)
    ensures CompareVersions(a, b) <= 0 && CompareVersions(b, c) <= 0 ==> CompareVersions(a, c) <= 0
    ensures CompareVersions(a, b) <= 0 && CompareVersions(b, c) <= 0 && CompareVersions(a, c) == 0 ==>
              CompareVersions(a, b) == 0 && CompareVersions(b, c) == 0
  {
    CompareMeaning(a, b);
    CompareMeaning(b, a);
    CompareMeaning(b, c);
    CompareMeaning(a, c);
    var p, q, r := Parse(a), Parse(b), Parse(c);
    SmallerChains(p, q, r);
    Trichotomy(p, r);
  }

  // ---- Sequences ----

  ghost predicate StrictlyIncreasing(versions: seq<string>) {
    forall i, j :: 0 <= i < j < |versions| ==> CompareVersions(versions[i], versions[j]) < 0
  }

  /** Position of the first adjacent pair that does not increase, or the length. */
  ghost predicate AdjacentUpTo(versions: seq<string>, n: nat) {
    forall i :: 1 <= i < n && i < |versions| ==> CompareVersions(versions[i], versions[i - 1]) > 0
  }

  lemma CompareChains(a: string, b: string, c: string)
    requires CompareVersions(a, b) < 0 && CompareVersions(c, b) > 0
    ensures CompareVersions(a, c) < 0
  {
    CompareIsTotalPreorder(b, c, b);
    CompareIsTotalPreorder(a, b, c);
    CompareMeaning(a, c);
  }

  lemma {:induction false} AdjacentIsPairwise(versions: seq<string>, i: nat, j: nat)
    requires i < j < |versions| && AdjacentUpTo(versions, |versions|)
    ensures CompareVersions(versions[i], versions[j]) < 0
    decreases j - i
  {
    if i < j - 1 {
      AdjacentIsPairwise(versions, i, j - 1);
      CompareChains(versions[i], versions[j - 1], versions[j]);
    } else {
      CompareIsTotalPreorder(versions[i], versions[j], versions[i]);
    }
  }

  /** The first adjacent pair among the first `n` versions that does not increase. */
  function DropBefore(versions: seq<string>, n: nat): Option<(string, string)>
    requires n <= |versions|
  {
    if n <= 1 then None
    else
      var before := DropBefore(versions, n - 1);
      if before.Some? then before
      else if CompareVersions(versions[n - 1], versions[n - 2]) <= 0 then Some((versions[n - 2], versions[n - 1]))
      else None
  }

  function FirstDrop(versions: seq<string>): Option<(string, string)> {
    DropBefore(versions, |versions|)
  }

  lemma NextDrop(versions: seq<string>, i: nat)
    requires 1 <= i < |versions| && DropBefore(versions, i).None?
    ensures DropBefore(versions, i + 1) ==
      if CompareVersions(versions[i], versions[i - 1]) <= 0 then Some((versions[i - 1], versions[i])) else None
  {
  }

  lemma {:induction false} DropStays(versions: seq<string>, n: nat, m: nat)
    requires n <= m <= |versions| && DropBefore(versions, n).Some?
    ensures DropBefore(versions, m) == DropBefore(versions, n)
  {
    if n < m {
      DropStays(versions, n, m - 1);
    }
  }

  lemma {:induction false} NoDropIsAdjacent(versions: seq<string>, n: nat)
    requires n <= |versions|
    ensures DropBefore(versions, n).None? <==> AdjacentUpTo(versions, n)
  {
    if n > 1 {
      NoDropIsAdjacent(versions, n - 1);
    }
  }

  lemma IncreasingIsAdjacent(versions: seq<string>)
    requires StrictlyIncreasing(versions)
    ensures AdjacentUpTo(versions, |versions|)
  {
    forall i | 1 <= i < |versions|
      ensures CompareVersions(versions[i], versions[i - 1]) > 0
    {
      CompareIsTotalPreorder(versions[i], versions[i - 1], versions[i]);
    }
  }

  lemma AdjacentIsIncreasing(versions: seq<string>)
    requires AdjacentUpTo(versions, |versions|)
    ensures StrictlyIncreasing(versions)
  {
    forall i, j | 0 <= i < j < |versions|
      ensures CompareVersions(versions[i], versions[j]) < 0
    {
      AdjacentIsPairwise(versions, i, j);
    }
  }

  /** No adjacent pair fails exactly when every later version is greater than every earlier one. */
  lemma NoDropIsIncreasing(versions: seq<string>)
    ensures FirstDrop(versions).None? <==> StrictlyIncreasing(versions)
  {
    NoDropIsAdjacent(versions, |versions|);
    if AdjacentUpTo(versions, |versions|) {
      AdjacentIsIncreasing(versions);
    }
    if StrictlyIncreasing(versions) {
      IncreasingIsAdjacent(versions);
    }
  }

  /** Up to `i` every version is greater than the one before; the one at `i` is not. */
  ghost predicate FailsFirst(versions: seq<string>, i: nat, pair: (string, string)) {
    && 1 <= i < |versions| && AdjacentUpTo(versions, i)
    && pair == (versions[i - 1], versions[i]) && CompareVersions(versions[i], versions[i - 1]) <= 0
  }

  lemma FailsFirstIsDrop(versions: seq<string>, i: nat, pair: (string, string))
    requires FailsFirst(versions, i, pair)
    ensures FirstDrop(versions) == Some(pair)
  {
    NoDropIsAdjacent(versions, i);
    NextDrop(versions, i);
    DropStays(versions, i + 1, |versions|);
  }

  /** The adjacent-pair loop decides pairwise strict increase, and reports the first pair that fails. */
  method IsVersionSequenceValid(versions: seq<string>) returns (valid: bool, error: Option<(string, string)>)
    ensures valid <==> StrictlyIncreasing(versions)
    ensures valid <==> error.None?
    ensures error == FirstDrop(versions)
    ensures !valid ==> exists i :: FailsFirst(versions, i, error.value)
  {
    error := FindDrop(versions);
    valid := error.None?;
    NoDropIsIncreasing(versions);
    NoDropIsAdjacent(versions, |versions|);
    if i: nat :| error.Some? && FailsFirst(versions, i, error.value) {
      FailsFirstIsDrop(versions, i, error.value);
    }
  }

  method FindDrop(versions: seq<string>) returns (error: Option<(string, string)>)
    ensures error.None? ==> AdjacentUpTo(versions, |versions|)
    ensures error.Some? ==> exists i :: FailsFirst(versions, i, error.value)
  {
    if |versions| <= 1 {
      return None;
    }
    for i := 1 to |versions|
      invariant AdjacentUpTo(versions, i)
    {
      var prev, curr := versions[i - 1], versions[i];
      if CompareVersions(curr, prev) <= 0 {
        assert FailsFirst(versions, i, (prev, curr));
        return Some((prev, curr));
      }
    }
    return None;
  }
}
