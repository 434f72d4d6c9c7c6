/** Sorted directory listings: `sorted(dir.glob("*.json"))`. */
module Listings {

  /** A file name, represented by its rank in the order in which Python sorts names. */
  type Name = nat

  ghost predicate Increasing(names: seq<Name>) {
    forall i, j :: 0 <= i < j < |names| ==> names[i] < names[j]
  }

  ghost predicate IsLeast(least: Name, names: set<Name>) {
    least in names && forall n :: n in names ==> least <= n
  }

  lemma LeastExists(names: set<Name>)
    requires names != {}
    ensures exists least :: IsLeast(least, names)
  {
    var some :| some in names;
    var rest := names - {some};
    assert names == rest + {some};
    if rest == {} {
      assert IsLeast(some, names);
    } else {
      LeastExists(rest);
      var least :| IsLeast(least, rest);
      assert IsLeast(if some < least then some else least, names);
    }
  }

  function Least(names: set<Name>): (least: Name)
    requires names != {}
    ensures least in names && forall n :: n in names ==> least <= n
  {
    LeastExists(names);
    var least :| least in names && forall n :: n in names ==> least <= n;
    least
  }

  function Sorted(names: set<Name>): (r: seq<Name>)
    ensures Increasing(r)
    ensures forall n :: n in r <==> n in names
  {
    if names == {} then []
    else
      var least := Least(names);
      [least] + Sorted(names - {least})
  }
}
