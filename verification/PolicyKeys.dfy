/**
  Which setting a policy merge keeps, told from the letters of the key: a "limit" keeps the smaller
  number, an "allow" list what both sides have, every other number and list the greater and the union.
*/
module PolicyKeys {
  import opened Ascii
  import opened PolicyMerge

  /** The same letter in either case. */
  predicate SameLetter(c: char, lower: char) {
    c == lower || c as int + 32 == lower as int
  }

  predicate LowerCase(word: string) {
    forall i :: 0 <= i < |word| ==> 'a' <= word[i] <= 'z'
  }

  /** `part` is the word in any mixture of cases. */
  predicate Spells(part: string, word: string) {
    |part| == |word| && forall i :: 0 <= i < |word| ==> SameLetter(part[i], word[i])
  }

  /** Somewhere in the key the word is spelled. */
  ghost predicate Named(key: string, word: string) {
    exists x, part, y :: key == x + part + y && Spells(part, word)
  }

  lemma LowerSpells(part: string, word: string)
    requires LowerCase(word)
    ensures Lower(part) == word <==> Spells(part, word)
  {
    if Spells(part, word) {
      forall i | 0 <= i < |word|
        ensures Lower(part)[i] == word[i]
      {
        assert SameLetter(part[i], word[i]);
      }
    }
    if Lower(part) == word {
      forall i | 0 <= i < |word|
        ensures SameLetter(part[i], word[i])
      {
        assert Lower(part)[i] == word[i];
      }
    }
  }

  lemma LowerConcat(x: string, y: string)
    ensures Lower(x + y) == Lower(x) + Lower(y)
  {
  }

  /** Searching the lower-cased key finds exactly the words spelled in it. */
  lemma ContainsIsNamed(key: string, word: string)
    requires LowerCase(word)
    ensures Contains(Lower(key), word) <==> Named(key, word)
  {
    if Contains(Lower(key), word) {
      FoundIsNamed(key, word);
    }
    if Named(key, word) {
      NamedIsFound(key, word);
    }
  }

  lemma FoundIsNamed(key: string, word: string)
    requires LowerCase(word) && Contains(Lower(key), word)
    ensures Named(key, word)
  {
    var i :| 0 <= i <= |Lower(key)| && word <= Lower(key)[i..];
    var x, part, y := key[..i], key[i..i + |word|], key[i + |word|..];
    assert key == x + part + y;
    assert Lower(part) == Lower(key)[i..][..|word|] == word;
    LowerSpells(part, word);
  }

  lemma NamedIsFound(key: string, word: string)
    requires LowerCase(word) && Named(key, word)
    ensures Contains(Lower(key), word)
  {
    var x, part, y :| key == x + part + y && Spells(part, word);
    LowerSpells(part, word);
    LowerConcat(x + part, y);
    LowerConcat(x, part);
    assert Lower(key)[|x|..] == word + Lower(y);
  }

  function Smaller(a: real, b: real): real {
    if a <= b then a else b
  }

  function Greater(a: real, b: real): real {
    if a <= b then b else a
  }

  /** Two numbers under a key: the smaller if it spells "limit" in any case, else the greater. */
  lemma NumbersByName(key: string, a: real, b: real)
    ensures Named(key, "limit") ==> MergeValue(key, Num(a), Num(b)) == Num(Smaller(a, b))
    ensures !Named(key, "limit") ==> MergeValue(key, Num(a), Num(b)) == Num(Greater(a, b))
  {
    ContainsIsNamed(key, "limit");
  }

  /** Two lists under a key: what both have if it spells "allow" in any case, else what either has. */
  lemma ListsByName(key: string, i: set<Scalar>, j: set<Scalar>)
    ensures Named(key, "allow") ==> MergeValue(key, List(i), List(j)) == List(set x | x in i && x in j)
    ensures !Named(key, "allow") ==> MergeValue(key, List(i), List(j)) == List(i + j)
  {
    ContainsIsNamed(key, "allow");
    assert (set x | x in i && x in j) == i * j;
  }

  /** Switches stay on only if both are on, and of two settings of other different kinds the base's stays. */
  lemma OthersByKind(key: string, a: Json, b: Json)
    ensures a.Bool? && b.Bool? ==> MergeValue(key, a, b) == Bool(a.b && b.b)
    ensures !(Numeric(a) && Numeric(b)) && !(a.List? && b.List?) && !(a.Dict? && b.Dict?) ==>
              MergeValue(key, a, b) == a
  {
  }

  /** A nested object is merged key by key; what one side alone has is kept. */
  lemma ObjectsByKey(f: map<string, Json>, g: map<string, Json>, k: string)
    ensures k in Merged(f, g) <==> k in f || k in g
    ensures k in f && k !in g ==> Merged(f, g)[k] == f[k]
    ensures k !in f && k in g ==> Merged(f, g)[k] == g[k]
    ensures k in f && k in g ==> Merged(f, g)[k] == MergeValue(k, f[k], g[k])
  {
  }

  /** The order of the meet laws in the same terms: under a limit less is stricter, else more is. */
  lemma StricterByName(key: string, a: real, b: real, i: set<Scalar>, j: set<Scalar>)
    ensures Stricter(key, Num(a), Num(b)) <==> if Named(key, "limit") then a <= b else a >= b
    ensures Stricter(key, List(i), List(j)) <==> if Named(key, "allow") then i <= j else j <= i
  {
    ContainsIsNamed(key, "limit");
    ContainsIsNamed(key, "allow");
  }

  /** A rate limit of 100 merged with one of 50 is 50, in whatever case the key is written. */
  lemma RateLimitKeepsTheSmaller(limit: string)
    requires Spells(limit, "limit")
    ensures Merged(map["rate_" + limit := Num(100.0)], map["rate_" + limit := Num(50.0)])
         == map["rate_" + limit := Num(50.0)]
  {
    var key := "rate_" + limit;
    assert key == "rate_" + limit + "";
    assert Named(key, "limit");
    NumbersByName(key, 100.0, 50.0);
  }
}
