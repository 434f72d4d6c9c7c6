/**
  Restrictive policy merge (`BlueprintMerger._merge_policies` in blueprint_merger.py).

  A policy is a JSON object. A list is represented by the set of its items, since merging goes
  through Python sets. Which of two settings is the stricter one depends on the key's name.
*/
module PolicyMerge {
  import opened Ascii

  datatype Scalar = Text(text: string) | Number(number: real) | Flag(flag: bool) | Nothing

  datatype Json =
    | Null
    | Str(s: string)
    | Bool(b: bool)
    | Num(n: real)
    | List(items: set<Scalar>)
    | Dict(fields: map<string, Json>)

  type Policy = map<string, Json>

  // ---- Key names ----

  predicate Contains(s: string, part: string) {
    exists i :: 0 <= i <= |s| && part <= s[i..]
  }

  predicate IsLimit(key: string) {
    Contains(Lower(key), "limit")
  }

  predicate IsThreshold(key: string) {
    Contains(Lower(key), "threshold")
  }

  predicate IsAllow(key: string) {
    Contains(Lower(key), "allow")
  }

  predicate IsBlock(key: string) {
    Contains(Lower(key), "block") || Contains(Lower(key), "deny")
  }

  // ---- The merge ----

  /** Booleans are numbers to Python's `isinstance`. */
  predicate Numeric(v: Json) {
    v.Num? || v.Bool?
  }

  function Value(v: Json): real
    requires Numeric(v)
  {
    if v.Num? then v.n else if v.b then 1.0 else 0.0
  }

  /** Python's two-argument `min` and `max` keep the first argument on a tie. */
  function MinOf(a: Json, b: Json): Json
    requires Numeric(a) && Numeric(b)
  {
    if Value(b) < Value(a) then b else a
  }

  function MaxOf(a: Json, b: Json): Json
    requires Numeric(a) && Numeric(b)
  {
    if Value(b) > Value(a) then b else a
  }

  function MergeValue(key: string, a: Json, b: Json): Json
    decreases a, 0
  {
    if a.Bool? && b.Bool? then Bool(a.b && b.b)
    else if Numeric(a) && Numeric(b) then (if IsLimit(key) then MinOf(a, b) else MaxOf(a, b))
    else if a.List? && b.List? then List(if IsAllow(key) then a.items * b.items else a.items + b.items)
    else if a.Dict? && b.Dict? then Dict(
      map k | k in a.fields.Keys + b.fields.Keys ::
        if k !in a.fields then b.fields[k]
        else if k !in b.fields then a.fields[k]
        else MergeValue(k, a.fields[k], b.fields[k]))
    else a
  }

  function Merged(base: Policy, incoming: Policy): Policy {
    MergeValue("", Dict(base), Dict(incoming)).fields
  }

  /** The source's loop over the incoming keys, recursing into nested objects. */
  method MergePolicies(base: Policy, incoming: Policy) returns (merged: Policy)
    ensures merged == Merged(base, incoming)
    decreases Dict(base), 0
  {
    merged := base;
    var left := incoming.Keys;
    while left != {}
      invariant left <= incoming.Keys
      invariant merged.Keys == base.Keys + (incoming.Keys - left)
      invariant forall k :: k in base && (k in left || k !in incoming) ==> merged[k] == base[k]
      invariant forall k :: k in incoming.Keys - left ==>
        merged[k] == if k in base then MergeValue(k, base[k], incoming[k]) else incoming[k]
      decreases left
    {
      var k :| k in left;
      left := left - {k};
      var v := incoming[k];
      if k in merged {
        assert Dict(base).fields[k] == merged[k];
        v := MergeSetting(k, merged[k], v);
      }
      merged := merged[k := v];
    }
  }

  /** The body of that loop for a key both sides have. */
  method MergeSetting(k: string, old_: Json, v: Json) returns (r: Json)
    ensures r == MergeValue(k, old_, v)
    decreases old_, 1
  {
    r := old_;
    if old_.Bool? && v.Bool? {
      r := Bool(old_.b && v.b);
    } else if Numeric(old_) && Numeric(v) {
      if IsThreshold(k) || IsLimit(k) {
        r := if IsLimit(k) then MinOf(old_, v) else MaxOf(old_, v);
      } else {
        r := MaxOf(old_, v);
      }
    } else if old_.List? && v.List? {
      if IsAllow(k) {
        r := List(old_.items * v.items);
      } else if IsBlock(k) {
        r := List(old_.items + v.items);
      } else {
        r := List(old_.items + v.items);
      }
    } else if old_.Dict? && v.Dict? {
      var inner := MergePolicies(old_.fields, v.fields);
      NestedMerge(k, old_, v);
      r := Dict(inner);
    }
  }

  /** The key above an object plays no part in merging it. */
  lemma NestedMerge(key: string, a: Json, b: Json)
    requires a.Dict? && b.Dict?
    ensures MergeValue(key, a, b) == Dict(Merged(a.fields, b.fields))
  {
  }

  // ---- The order the merge is a meet of ----

  /** `x` is at least as restrictive as `y` under `key`; an absent setting restricts nothing. */
  ghost predicate Stricter(key: string, x: Json, y: Json)
    decreases y
  {
    match (x, y)
    case (Bool(b), Bool(c)) => b ==> c
    case (Num(m), Num(n)) => if IsLimit(key) then m <= n else m >= n
    case (List(i), List(j)) => if IsAllow(key) then i <= j else i >= j
    case (Dict(f), Dict(g)) => forall k :: k in g ==> k in f && Stricter(k, f[k], g[k])
    case (_, _) => x == y
  }

  /** Settings of the same kind, at every depth where both have one. */
  ghost predicate Compatible(x: Json, y: Json)
    decreases x
  {
    match (x, y)
    case (Bool(_), Bool(_)) => true
    case (Num(_), Num(_)) => true
    case (List(_), List(_)) => true
    case (Dict(f), Dict(g)) => forall k :: k in f && k in g ==> Compatible(f[k], g[k])
    case (_, _) => x == y
  }

  lemma {:induction false} StricterIsPartialOrder(key: string, x: Json, y: Json, z: Json)
    ensures Stricter(key, x, x)
    ensures Stricter(key, x, y) && Stricter(key, y, x) ==> x == y
    ensures Stricter(key, x, y) && Stricter(key, y, z) ==> Stricter(key, x, z)
    decreases x
  {
    if x.Dict? {
      forall k | k in x.fields
        ensures Stricter(k, x.fields[k], x.fields[k])
      {
        StricterIsPartialOrder(k, x.fields[k], x.fields[k], x.fields[k]);
      }
      if y.Dict? && Stricter(key, x, y) && Stricter(key, y, x) {
        forall k | k in x.fields
          ensures k in y.fields && x.fields[k] == y.fields[k]
        {
          StricterIsPartialOrder(k, x.fields[k], y.fields[k], y.fields[k]);
        }
        assert x.fields == y.fields;
      }
      if y.Dict? && z.Dict? && Stricter(key, x, y) && Stricter(key, y, z) {
        forall k | k in z.fields
          ensures k in x.fields && Stricter(k, x.fields[k], z.fields[k])
        {
          StricterIsPartialOrder(k, x.fields[k], y.fields[k], z.fields[k]);
        }
      }
    }
  }

  /** The merge is at least as strict as both inputs exactly when they are compatible. */
  lemma {:induction false} MergeIsLowerBound(key: string, a: Json, b: Json)
    ensures Compatible(a, b) <==> Stricter(key, MergeValue(key, a, b), a) && Stricter(key, MergeValue(key, a, b), b)
    decreases a
  {
    if a.Dict? && b.Dict? {
      var m := MergeValue(key, a, b).fields;
      forall k | k in a.fields && k in b.fields
        ensures Compatible(a.fields[k], b.fields[k])
            <==> Stricter(k, m[k], a.fields[k]) && Stricter(k, m[k], b.fields[k])
      {
        MergeIsLowerBound(k, a.fields[k], b.fields[k]);
      }
      forall k | k in a.fields || k in b.fields
        ensures k in a.fields ==> Stricter(k, a.fields[k], a.fields[k])
        ensures k in b.fields ==> Stricter(k, b.fields[k], b.fields[k])
      {
        if k in a.fields {
          StricterIsPartialOrder(k, a.fields[k], a.fields[k], a.fields[k]);
        }
        if k in b.fields {
          StricterIsPartialOrder(k, b.fields[k], b.fields[k], b.fields[k]);
        }
      }
    }
  }

  /** It is the least restrictive such setting: whatever is as strict as both is as strict as the merge. */
  lemma {:induction false} MergeIsGreatest(key: string, a: Json, b: Json, c: Json)
    requires Stricter(key, c, a) && Stricter(key, c, b)
    ensures Compatible(a, b) && Stricter(key, c, MergeValue(key, a, b))
    decreases a
  {
    if a.Dict? && b.Dict? {
      forall k | k in a.fields && k in b.fields
        ensures Compatible(a.fields[k], b.fields[k])
            && Stricter(k, c.fields[k], MergeValue(k, a.fields[k], b.fields[k]))
      {
        MergeIsGreatest(k, a.fields[k], b.fields[k], c.fields[k]);
      }
    }
  }

  /** The meet law in one statement. */
  lemma MergeIsMeet(key: string, a: Json, b: Json, c: Json)
    requires Compatible(a, b)
    ensures Stricter(key, c, MergeValue(key, a, b)) <==> Stricter(key, c, a) && Stricter(key, c, b)
  {
    MergeIsLowerBound(key, a, b);
    if Stricter(key, c, MergeValue(key, a, b)) {
      StricterIsPartialOrder(key, c, MergeValue(key, a, b), a);
      StricterIsPartialOrder(key, c, MergeValue(key, a, b), b);
    }
    if Stricter(key, c, a) && Stricter(key, c, b) {
      MergeIsGreatest(key, a, b, c);
    }
  }

  // ---- Semilattice laws ----

  /** Merging a setting with itself changes nothing, whatever its shape. */
  lemma {:induction false} MergeIdempotent(key: string, a: Json)
    ensures MergeValue(key, a, a) == a
    decreases a
  {
    if a.Dict? {
      forall k | k in a.fields
        ensures MergeValue(k, a.fields[k], a.fields[k]) == a.fields[k]
      {
        MergeIdempotent(k, a.fields[k]);
      }
    }
  }

  /**
    When the order of the arguments does not matter: on a clash of kinds the base wins, so the
    clashing settings must be equal; a boolean and a number must differ in value.
  */
  ghost predicate Agree(a: Json, b: Json)
    decreases a
  {
    if (a.Bool? && b.Bool?) || (a.Num? && b.Num?) || (a.List? && b.List?) then true
    else if Numeric(a) && Numeric(b) then Value(a) != Value(b)
    else if a.Dict? && b.Dict? then forall k :: k in a.fields && k in b.fields ==> Agree(a.fields[k], b.fields[k])
    else a == b
  }

  lemma {:induction false} MergeCommutesIff(key: string, a: Json, b: Json)
    ensures MergeValue(key, a, b) == MergeValue(key, b, a) <==> Agree(a, b)
    decreases a
  {
    if a.Dict? && b.Dict? {
      var m, n := MergeValue(key, a, b).fields, MergeValue(key, b, a).fields;
      forall k | k in a.fields && k in b.fields
        ensures m[k] == n[k] <==> Agree(a.fields[k], b.fields[k])
      {
        MergeCommutesIff(k, a.fields[k], b.fields[k]);
      }
      if Agree(a, b) {
        assert m == n;
      }
      if m == n {
        forall k | k in a.fields && k in b.fields
          ensures Agree(a.fields[k], b.fields[k])
        {
          assert m[k] == n[k];
        }
      }
    } else if a.List? && b.List? {
      assert a.items * b.items == b.items * a.items && a.items + b.items == b.items + a.items;
    }
  }

  lemma {:induction false} CompatibleAgrees(a: Json, b: Json)
    requires Compatible(a, b)
    ensures Agree(a, b)
    decreases a
  {
    if a.Dict? && b.Dict? {
      forall k | k in a.fields && k in b.fields
        ensures Agree(a.fields[k], b.fields[k])
      {
        CompatibleAgrees(a.fields[k], b.fields[k]);
      }
    }
  }

  /** A merge stays compatible with whatever both inputs are compatible with. */
  lemma {:induction false} MergeStaysCompatible(key: string, a: Json, b: Json, c: Json)
    requires Compatible(a, b) && Compatible(a, c) && Compatible(b, c)
    ensures Compatible(MergeValue(key, a, b), c) && Compatible(c, MergeValue(key, a, b))
    decreases a
  {
    if a.Dict? && b.Dict? && c.Dict? {
      var m := MergeValue(key, a, b).fields;
      forall k | k in m && k in c.fields
        ensures Compatible(m[k], c.fields[k]) && Compatible(c.fields[k], m[k])
      {
        if k in a.fields && k in b.fields {
          MergeStaysCompatible(k, a.fields[k], b.fields[k], c.fields[k]);
        } else if k in a.fields {
          CompatibleSymmetric(a.fields[k], c.fields[k]);
        } else {
          CompatibleSymmetric(b.fields[k], c.fields[k]);
        }
      }
    }
  }

  lemma {:induction false} CompatibleSymmetric(a: Json, b: Json)
    requires Compatible(a, b)
    ensures Compatible(b, a)
    decreases a
  {
    if a.Dict? && b.Dict? {
      forall k | k in b.fields && k in a.fields
        ensures Compatible(b.fields[k], a.fields[k])
      {
        CompatibleSymmetric(a.fields[k], b.fields[k]);
      }
    }
  }

  lemma MergeAssociative(key: string, a: Json, b: Json, c: Json)
    requires Compatible(a, b) && Compatible(a, c) && Compatible(b, c)
    ensures MergeValue(key, MergeValue(key, a, b), c) == MergeValue(key, a, MergeValue(key, b, c))
  {
    var left := MergeValue(key, MergeValue(key, a, b), c);
    var right := MergeValue(key, a, MergeValue(key, b, c));
    MergeStaysCompatible(key, a, b, c);
    CompatibleSymmetric(a, b);
    CompatibleSymmetric(a, c);
    MergeStaysCompatible(key, b, c, a);
    MeetOfThree(key, a, b, c, left);
    MeetOfThree(key, a, b, c, right);
    StricterIsPartialOrder(key, left, left, left);
    StricterIsPartialOrder(key, right, right, right);
    StricterIsPartialOrder(key, left, right, left);
  }

  lemma MeetOfThree(key: string, a: Json, b: Json, c: Json, x: Json)
    requires Compatible(a, b) && Compatible(b, c)
    requires Compatible(MergeValue(key, a, b), c) && Compatible(a, MergeValue(key, b, c))
    ensures Stricter(key, x, MergeValue(key, MergeValue(key, a, b), c))
        <==> Stricter(key, x, MergeValue(key, a, MergeValue(key, b, c)))
  {
    MergeIsMeet(key, a, b, x);
    MergeIsMeet(key, b, c, x);
    MergeIsMeet(key, MergeValue(key, a, b), c, x);
    MergeIsMeet(key, a, MergeValue(key, b, c), x);
  }

  /**
    The key decides, not the intent: the name of a deny list that contains "allow" gets it
    intersected, so entries blocked by only one side are dropped. Lists grow exactly under the
    other names.
  */
  lemma ListMergeKeepsBothIff(key: string, i: set<Scalar>, j: set<Scalar>)
    ensures MergeValue(key, List(i), List(j)) == List(i + j) <==> !IsAllow(key) || i == j
    ensures IsAllow("disallowed_tools")
  {
    if IsAllow(key) && i * j == i + j {
      forall x
        ensures x in i <==> x in j
      {
        assert x in i + j <==> x in i * j;
      }
    }
    if i == j {
      assert i * j == i + j;
    }
    var name := Lower("disallowed_tools");
    assert name == "disallowed_tools";
    assert name[3..] == "allowed_tools";
    assert "allow" <= name[3..];
  }
}
