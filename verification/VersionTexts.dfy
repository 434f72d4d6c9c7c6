/** What `compare_versions` reads in a version string: the numbers it was printed from, in their order. */
module VersionTexts {
  import opened Versions

  // ---- Printing ----

  function Digits(n: nat): string {
    if n < 10 then [('0' as int + n) as char] else Digits(n / 10) + [('0' as int + n % 10) as char]
  }

  /** The numbers in decimal, joined by dots. */
  function Print(p: seq<nat>): string
    requires p != []
  {
    if |p| == 1 then Digits(p[0]) else Digits(p[0]) + "." + Print(p[1..])
  }

  function Vs(k: nat): string {
    if k == 0 then "" else "v" + Vs(k - 1)
  }

  predicate DotFree(s: string) {
    forall i :: 0 <= i < |s| ==> s[i] != '.'
  }

  // ---- Reading part by part ----

  lemma {:induction false} SplitConcat(part: string, x: string, y: string)
    ensures Split(part, x + "." + y) == Split(part, x) + Split("", y)
    decreases |x|
  {
    var s := x + "." + y;
    if x == "" {
      assert s[1..] == y;
    } else {
      assert s[0] == x[0] && s[1..] == x[1..] + "." + y;
      if x[0] == '.' {
        SplitConcat("", x[1..], y);
      } else {
        SplitConcat(part + [x[0]], x[1..], y);
      }
    }
  }

  lemma {:induction false} SplitDotFree(part: string, s: string)
    requires DotFree(s)
    ensures Split(part, s) == [part + s]
    decreases |s|
  {
    if s == "" {
      assert part + s == part;
    } else {
      SplitDotFree(part + [s[0]], s[1..]);
      assert part + [s[0]] + s[1..] == part + s;
    }
  }

  lemma {:induction false} NumbersConcat(a: seq<string>, b: seq<string>)
    ensures Numbers(a + b) == Numbers(a) + Numbers(b)
  {
    if a == [] {
      assert a + b == b;
    } else {
      assert (a + b)[1..] == a[1..] + b;
      NumbersConcat(a[1..], b);
    }
  }

  lemma {:induction false} StripConcat(x: string, y: string)
    ensures StripV(x + "." + y) == StripV(x) + "." + y
  {
    if x != "" && x[0] == 'v' {
      assert (x + "." + y)[1..] == x[1..] + "." + y;
      StripConcat(x[1..], y);
    }
  }

  /** What is read after the first dot; leading letters are only stripped before it. */
  function ReadRest(s: string): seq<nat> {
    Numbers(Split("", s))
  }

  /** The parts are read one by one and kept in order. */
  lemma ParseConcat(x: string, y: string)
    ensures Parse(x + "." + y) == Parse(x) + ReadRest(y)
  {
    StripConcat(x, y);
    SplitConcat("", StripV(x), y);
    NumbersConcat(Split("", StripV(x)), Split("", y));
  }

  lemma RestConcat(x: string, y: string)
    ensures ReadRest(x + "." + y) == ReadRest(x) + ReadRest(y)
  {
    SplitConcat("", x, y);
    NumbersConcat(Split("", x), Split("", y));
  }

  lemma RestOfPart(part: string)
    requires DotFree(part)
    ensures ReadRest(part) == if IsDigits(part) then [ToNat(part)] else []
  {
    SplitDotFree("", part);
    assert "" + part == part;
    var parts := [part];
    assert parts[1..] == [] && Numbers(parts[1..]) == [];
    assert Numbers(parts) == (if IsDigits(part) then [ToNat(part)] else []) + Numbers(parts[1..]);
  }

  /** A part that is not all digits is skipped: the version reads as if it were not there. */
  lemma OtherPartSkipped(x: string, part: string, y: string)
    requires DotFree(part) && (part == "" || exists i :: 0 <= i < |part| && !('0' <= part[i] <= '9'))
    ensures Parse(x + "." + part) == Parse(x)
    ensures Parse(x + "." + (part + "." + y)) == Parse(x + "." + y)
  {
    RestOfPart(part);
    ParseConcat(x, part);
    ParseConcat(x, part + "." + y);
    RestConcat(part, y);
    ParseConcat(x, y);
  }

  // ---- Round trip ----

  lemma {:induction false} DigitsRead(n: nat)
    ensures IsDigits(Digits(n)) && DotFree(Digits(n)) && ToNat(Digits(n)) == n
  {
    if n < 10 {
      assert Digits(n)[..0] == "";
    } else {
      DigitsRead(n / 10);
      var s := Digits(n);
      assert s[..|s| - 1] == Digits(n / 10);
    }
  }

  /** Leading zeros do not count. */
  lemma {:induction false} LeadingZero(s: string)
    requires IsDigits(s)
    ensures IsDigits("0" + s) && ToNat("0" + s) == ToNat(s)
  {
    var z := "0" + s;
    assert forall i :: 1 <= i < |z| ==> z[i] == s[i - 1];
    if |s| == 1 {
      assert z[..1] == "0" && "0"[..0] == "" && s[..0] == "";
    } else {
      assert z[..|z| - 1] == "0" + s[..|s| - 1];
      LeadingZero(s[..|s| - 1]);
    }
  }

  lemma {:induction false} PrintRead(p: seq<nat>)
    requires p != []
    ensures ReadRest(Print(p)) == p
  {
    DigitsRead(p[0]);
    RestOfPart(Digits(p[0]));
    if |p| > 1 {
      RestConcat(Digits(p[0]), Print(p[1..]));
      PrintRead(p[1..]);
      assert p == [p[0]] + p[1..];
    }
  }

  lemma {:induction false} StripPrinted(k: nat, s: string)
    requires s == "" || s[0] != 'v'
    ensures StripV(Vs(k) + s) == s
  {
    if k == 0 {
      assert Vs(k) + s == s;
    } else {
      assert (Vs(k) + s)[0] == 'v' && (Vs(k) + s)[1..] == Vs(k - 1) + s;
      StripPrinted(k - 1, s);
    }
  }

  /** Parsing inverts printing, whatever number of leading letters. */
  lemma ParsePrint(k: nat, p: seq<nat>)
    requires p != []
    ensures Parse(Vs(k) + Print(p)) == p
  {
    DigitsRead(p[0]);
    assert Print(p)[0] == Digits(p[0])[0];
    StripPrinted(k, Print(p));
    PrintRead(p);
  }

  /** Printed versions compare number by number from the left, a missing number counting as 0. */
  lemma PrintedCompare(j: nat, p: seq<nat>, k: nat, q: seq<nat>)
    requires p != [] && q != []
    ensures var order := CompareVersions(Vs(j) + Print(p), Vs(k) + Print(q));
      && (order == -1 <==> Smaller(p, q))
      && (order == 1 <==> Smaller(q, p))
      && (order == 0 <==> SameNumbers(p, q))
  {
    ParsePrint(j, p);
    ParsePrint(k, q);
    CompareMeaning(Vs(j) + Print(p), Vs(k) + Print(q));
  }

  /** The leftmost difference decides, however large the later numbers. */
  lemma LeftmostDecides(k: nat, front: seq<nat>, a: nat, b: nat, p: seq<nat>, q: seq<nat>)
    requires a < b
    ensures CompareVersions(Vs(k) + Print(front + [a] + p), Print(front + [b] + q)) == -1
  {
    var x, y := front + [a] + p, front + [b] + q;
    PrintedCompare(k, x, 0, y);
    assert Vs(0) + Print(y) == Print(y);
    assert Number(x, |front|) == a && Number(y, |front|) == b;
    assert SmallerAt(x, y, |front|);
  }

  /** Printed versions strictly increase, as the chain check asks, exactly when they do number by number. */
  lemma PrintedIncrease(numbers: seq<seq<nat>>, versions: seq<string>)
    requires |versions| == |numbers|
    requires forall i :: 0 <= i < |numbers| ==> numbers[i] != [] && versions[i] == Print(numbers[i])
    ensures StrictlyIncreasing(versions) <==> forall i, j :: 0 <= i < j < |numbers| ==> Smaller(numbers[i], numbers[j])
  {
    forall i, j | 0 <= i < j < |numbers|
      ensures CompareVersions(versions[i], versions[j]) < 0 <==> Smaller(numbers[i], numbers[j])
    {
      PrintedCompare(0, numbers[i], 0, numbers[j]);
      assert Vs(0) + versions[i] == versions[i] && Vs(0) + versions[j] == versions[j];
      CompareMeaning(versions[i], versions[j]);
    }
  }
}
