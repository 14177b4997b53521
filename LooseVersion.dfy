/**
 * `distutils.version.LooseVersion` ordering, for version tokens made of
 * digits and dots (the only tokens the processors' patterns capture).
 * A token splits into its maximal digit runs, each run becomes the number
 * `int()` gives it, and two tokens compare as Python compares the two
 * lists of numbers: element by element, a proper prefix being smaller.
 */
module LooseVersion {
  import opened Text

  /** `int(d)` for a string of decimal digits. */
  function DecimalValue(d: string): nat
    requires AllDigits(d)
  {
    if d == [] then 0 else 10 * DecimalValue(d[..|d| - 1]) + DigitValue(d[|d| - 1])
  }

  /** The numbers of the maximal digit runs of `s`, left to right; dots separate them. */
  function Components(s: string): seq<nat>
    decreases |s|
  {
    if s == [] then []
    else if !IsDigit(s[0]) then Components(s[1..])
    else
      var n := LeadingDigits(s);
      [DecimalValue(s[..n])] + Components(s[n..])
  }

  /** Python's `<` on two lists of numbers. */
  predicate LexLess(a: seq<nat>, b: seq<nat>)
    decreases |a|
  {
    if a == [] then b != []
    else if b == [] then false
    else if a[0] != b[0] then a[0] < b[0]
    else LexLess(a[1..], b[1..])
  }

  /** `LooseVersion(a) < LooseVersion(b)`. */
  predicate VersionLess(a: string, b: string) {
    LexLess(Components(a), Components(b))
  }

  /** `LooseVersion(a) > LooseVersion(b)`, the test the version scan makes. */
  predicate VersionGreater(a: string, b: string) {
    VersionLess(b, a)
  }

  // ---------------------------------------------------------------------------
  // The list ordering

  /**
   * An independent statement of list ordering: `a` is a proper prefix of `b`,
   * or at the first position where they differ `a` holds the smaller number.
   */
  ghost predicate LexLessSpec(a: seq<nat>, b: seq<nat>) {
    (|a| < |b| && a == b[..|a|])
    || exists i :: 0 <= i < |a| && i < |b| && a[..i] == b[..i] && a[i] < b[i]
  }

  lemma {:induction false} LexLessMeansSpec(a: seq<nat>, b: seq<nat>)
    ensures LexLess(a, b) <==> LexLessSpec(a, b)
    decreases |a|
  {
    if a == [] {
    } else if b == [] {
    } else if a[0] != b[0] {
      if a[0] < b[0] {
        assert a[..0] == b[..0];
      }
      forall i | 0 < i <= |a| && i <= |b|
        ensures a[..i] != b[..i]
      {
        assert a[..i][0] == a[0];
      }
    } else {
      LexLessMeansSpec(a[1..], b[1..]);
      if LexLessSpec(a[1..], b[1..]) {
        if |a[1..]| < |b[1..]| && a[1..] == b[1..][..|a[1..]|] {
          assert a == [a[0]] + a[1..] && b[..|a|] == [b[0]] + b[1..][..|a[1..]|];
        } else {
          var i :| 0 <= i < |a[1..]| && i < |b[1..]| && a[1..][..i] == b[1..][..i] && a[1..][i] < b[1..][i];
          assert a[..i + 1] == [a[0]] + a[1..][..i];
          assert b[..i + 1] == [b[0]] + b[1..][..i];
        }
      }
      if LexLessSpec(a, b) {
        if |a| < |b| && a == b[..|a|] {
          assert a[1..] == b[1..][..|a[1..]|];
        } else {
          var i :| 0 <= i < |a| && i < |b| && a[..i] == b[..i] && a[i] < b[i];
          assert i > 0;
          assert a[1..][..i - 1] == a[..i][1..] == b[..i][1..] == b[1..][..i - 1];
          assert a[1..][i - 1] == a[i];
        }
      }
    }
  }

  lemma {:induction false} LexLessIrreflexive(a: seq<nat>)
    ensures !LexLess(a, a)
    decreases |a|
  {
    if a != [] {
      LexLessIrreflexive(a[1..]);
    }
  }

  lemma {:induction false} LexLessTransitive(a: seq<nat>, b: seq<nat>, c: seq<nat>)
    requires LexLess(a, b) && LexLess(b, c)
    ensures LexLess(a, c)
    decreases |a|
  {
    if a != [] && a[0] == b[0] && b[0] == c[0] {
      LexLessTransitive(a[1..], b[1..], c[1..]);
    }
  }

  /** Any two lists are equal or ordered one way. */
  lemma {:induction false} LexLessTotal(a: seq<nat>, b: seq<nat>)
    ensures a == b || LexLess(a, b) || LexLess(b, a)
    decreases |a|
  {
    if a != [] && b != [] && a[0] == b[0] {
      LexLessTotal(a[1..], b[1..]);
      if a[1..] == b[1..] {
        assert a == [a[0]] + a[1..] && b == [b[0]] + b[1..];
      }
    }
  }

  lemma {:induction false} LexLessAsymmetric(a: seq<nat>, b: seq<nat>)
    requires LexLess(a, b)
    ensures !LexLess(b, a)
    decreases |a|
  {
    if a != [] && b != [] && a[0] == b[0] {
      LexLessAsymmetric(a[1..], b[1..]);
    }
  }

  /** A proper prefix is smaller: `[1, 2] < [1, 2, 0]`. */
  lemma {:induction false} ProperPrefixIsLess(a: seq<nat>, b: seq<nat>)
    requires |a| < |b| && a == b[..|a|]
    ensures LexLess(a, b)
    decreases |a|
  {
    if a != [] {
      assert a[0] == b[0];
      assert a[1..] == b[1..][..|a| - 1];
      ProperPrefixIsLess(a[1..], b[1..]);
    }
  }

  // ---------------------------------------------------------------------------
  // The version ordering on tokens

  lemma VersionLessIrreflexive(a: string)
    ensures !VersionLess(a, a)
  {
    LexLessIrreflexive(Components(a));
  }

  lemma VersionLessAsymmetric(a: string, b: string)
    requires VersionLess(a, b)
    ensures !VersionLess(b, a)
  {
    LexLessAsymmetric(Components(a), Components(b));
  }

  /** `a <= b < c` gives `a < c`: what keeps the scan's winner above everything seen so far. */
  lemma NotGreaterThenLess(a: string, b: string, c: string)
    requires !VersionLess(b, a) && VersionLess(b, c)
    ensures VersionLess(a, c)
  {
    LexLessTotal(Components(a), Components(b));
    if VersionLess(a, b) {
      LexLessTransitive(Components(a), Components(b), Components(c));
    }
  }

  // ---------------------------------------------------------------------------
  // How tokens split into numbers

  /** A non-digit ends a run, so the runs on either side of it stay apart. */
  lemma {:induction false} ComponentsSplit(a: string, t: string)
    requires t != [] && !IsDigit(t[0])
    ensures Components(a + t) == Components(a) + Components(t)
    decreases |a|
  {
    if a == [] {
      assert a + t == t;
    } else if !IsDigit(a[0]) {
      assert (a + t)[0] == a[0];
      assert (a + t)[1..] == a[1..] + t;
      ComponentsSplit(a[1..], t);
    } else {
      assert (a + t)[0] == a[0];
      LeadingDigitsAppend(a, t);
      var n := LeadingDigits(a);
      assert (a + t)[..n] == a[..n];
      assert (a + t)[n..] == a[n..] + t;
      ComponentsSplit(a[n..], t);
    }
  }

  /** Dots only separate: `Components(a + "." + b)` joins the two lists. */
  lemma ComponentsDot(a: string, b: string)
    ensures Components(a + "." + b) == Components(a) + Components(b)
  {
    assert a + "." + b == a + ("." + b);
    ComponentsSplit(a, "." + b);
    assert ("." + b)[1..] == b;
  }

  /** A run of digits is one number. */
  lemma ComponentsOfDigits(d: string)
    requires d != [] && AllDigits(d)
    ensures Components(d) == [DecimalValue(d)]
  {
    var n := LeadingDigits(d);
    assert n == |d| by {
      if n < |d| {
        assert false;
      }
    }
    assert d[..n] == d && d[n..] == [];
    assert Components(d) == [DecimalValue(d[..n])] + Components(d[n..]) by {
      assert IsDigit(d[0]);
    }
  }

  /** A token `a.b` of two digit runs has exactly their two numbers. */
  lemma ComponentsOfTwo(a: string, b: string)
    requires a != [] && AllDigits(a) && b != [] && AllDigits(b)
    ensures Components(a + "." + b) == [DecimalValue(a), DecimalValue(b)]
  {
    ComponentsDot(a, b);
    ComponentsOfDigits(a);
    ComponentsOfDigits(b);
  }

  /** A token `a.b.c` of three digit runs has exactly their three numbers. */
  lemma ComponentsOfThree(a: string, b: string, c: string)
    requires a != [] && AllDigits(a) && b != [] && AllDigits(b) && c != [] && AllDigits(c)
    ensures Components(a + "." + b + "." + c) == [DecimalValue(a), DecimalValue(b), DecimalValue(c)]
  {
    ComponentsDot(a + "." + b, c);
    ComponentsOfTwo(a, b);
    ComponentsOfDigits(c);
  }

  /** A token `x.y.z` of single digits. */
  lemma ComponentsOfThreeDigits(x: char, y: char, z: char)
    requires IsDigit(x) && IsDigit(y) && IsDigit(z)
    ensures Components([x, '.', y, '.', z]) == [DigitValue(x), DigitValue(y), DigitValue(z)]
  {
    assert [x, '.', y, '.', z] == [x] + "." + [y] + "." + [z];
    ComponentsOfThree([x], [y], [z]);
    assert [x][..0] == [] && [y][..0] == [] && [z][..0] == [];
  }

  /** `int()` ignores leading zeros, so `"1.02"` and `"1.2"` are the same version. */
  lemma {:induction false} LeadingZeroIgnored(d: string)
    requires AllDigits(d)
    ensures AllDigits("0" + d) && DecimalValue("0" + d) == DecimalValue(d)
    decreases |d|
  {
    var z := "0" + d;
    assert AllDigits(z);
    if d == [] {
      assert z[..0] == [];
    } else {
      assert z[..|z| - 1] == "0" + d[..|d| - 1];
      assert z[|z| - 1] == d[|d| - 1];
      LeadingZeroIgnored(d[..|d| - 1]);
    }
  }

  // ---------------------------------------------------------------------------
  // The comparisons the processors rely on

  /** A token `x.y` of single digits. */
  lemma ComponentsOfTwoDigits(x: char, y: char)
    requires IsDigit(x) && IsDigit(y)
    ensures Components([x, '.', y]) == [DigitValue(x), DigitValue(y)]
  {
    assert [x, '.', y] == [x] + "." + [y];
    ComponentsOfTwo([x], [y]);
    assert [x][..0] == [] && [y][..0] == [];
  }

  /** A token `x.yz.w` of digits, the middle run two digits long. */
  lemma ComponentsOfWideMiddle(x: char, y: char, z: char, w: char)
    requires IsDigit(x) && IsDigit(y) && IsDigit(z) && IsDigit(w)
    ensures Components([x, '.', y, z, '.', w]) == [DigitValue(x), 10 * DigitValue(y) + DigitValue(z), DigitValue(w)]
  {
    assert [x, '.', y, z, '.', w] == [x] + "." + [y, z] + "." + [w];
    ComponentsOfThree([x], [y, z], [w]);
    assert [x][..0] == [] && [w][..0] == [];
    assert [y, z][..1] == [y] && [y][..0] == [];
  }

  lemma ComponentsOneTenZero()
    ensures Components("1.10.0") == [1, 10, 0]
  {
    ComponentsOfWideMiddle('1', '1', '0', '0');
  }

  lemma ComponentsOneTwoZero()
    ensures Components("1.2.0") == [1, 2, 0]
  {
    ComponentsOfThreeDigits('1', '2', '0');
  }

  lemma ComponentsOneTwo()
    ensures Components("1.2") == [1, 2]
  {
    ComponentsOfTwoDigits('1', '2');
  }

  /**
   * Numeric, not textual: "1.10.0" is above "1.2.0" (as text it would sort
   * below), and "1.2" is below "1.2.0" because a proper prefix is smaller.
   */
  lemma NumericNotTextual()
    ensures VersionGreater("1.10.0", "1.2.0") && !VersionGreater("1.2.0", "1.10.0")
    ensures VersionLess("1.2", "1.2.0") && !VersionLess("1.2.0", "1.2")
  {
    ComponentsOneTenZero();
    ComponentsOneTwoZero();
    ComponentsOneTwo();
    assert LexLess([1, 2, 0], [1, 10, 0]);
    LexLessAsymmetric([1, 2, 0], [1, 10, 0]);
    ProperPrefixIsLess([1, 2], [1, 2, 0]);
    LexLessAsymmetric([1, 2], [1, 2, 0]);
  }
}
