/** Character classes and the few string operations the two processors use. */
module Text {
  import opened Wrappers

  /** An ASCII decimal digit, what `\d` and `int()` accept in this model. */
  predicate IsDigit(c: char) {
    '0' <= c <= '9'
  }

  function DigitValue(c: char): (n: nat)
    requires IsDigit(c)
    ensures n < 10
  {
    c as int - '0' as int
  }

  predicate AllDigits(s: string) {
    forall i :: 0 <= i < |s| ==> IsDigit(s[i])
  }

  /** Length of the maximal run of digits at the start of `s`. */
  function LeadingDigits(s: string): (n: nat)
    ensures n <= |s|
    ensures AllDigits(s[..n])
    ensures n < |s| ==> !IsDigit(s[n])
  {
    if s == [] || !IsDigit(s[0]) then 0 else 1 + LeadingDigits(s[1..])
  }

  /** A character that is not a digit ends the leading digit run. */
  lemma {:induction false} LeadingDigitsAppend(a: string, t: string)
    requires t == [] || !IsDigit(t[0])
    ensures LeadingDigits(a + t) == LeadingDigits(a)
  {
    if a == [] {
      assert a + t == t;
    } else {
      assert (a + t)[0] == a[0];
      if IsDigit(a[0]) {
        assert (a + t)[1..] == a[1..] + t;
        LeadingDigitsAppend(a[1..], t);
      }
    }
  }

  predicate IsUpper(c: char) {
    'A' <= c <= 'Z'
  }

  function LowerChar(c: char): char {
    if IsUpper(c) then (c as int - 'A' as int + 'a' as int) as char else c
  }

  /** `str.lower()`, restricted to the ASCII letters. */
  function Lower(s: string): (r: string)
    ensures |r| == |s|
    ensures forall i :: 0 <= i < |s| ==> r[i] == LowerChar(s[i])
    ensures forall i :: 0 <= i < |r| ==> !IsUpper(r[i])
  {
    if s == [] then [] else [LowerChar(s[0])] + Lower(s[1..])
  }

  /** Index of the last occurrence of `c` in `s`, if any. */
  function LastIndexOf(s: string, c: char): (r: Option<nat>)
    ensures r.None? <==> c !in s
    ensures r.Some? ==> r.value < |s| && s[r.value] == c && c !in s[r.value + 1..]
  {
    if s == [] then None
    else if s[|s| - 1] == c then Some(|s| - 1)
    else
      var init := s[..|s| - 1];
      var r := LastIndexOf(init, c);
      assert s == init + [s[|s| - 1]];
      assert c in s <==> c in init;
      match r
      case None => r
      case Some(i) =>
        assert s[i + 1..] == init[i + 1..] + [s[|s| - 1]];
        r
  }

  /**
   * `s.rsplit(sep, 1)[0]`: everything before the last `sep`, or the whole
   * string when `sep` does not occur.
   */
  function RSplitHead(s: string, sep: char): (head: string)
    ensures |head| <= |s| && head == s[..|head|]
    ensures sep !in s ==> head == s
    ensures sep in s ==> |head| < |s| && s[|head|] == sep && sep !in s[|head| + 1..]
  {
    match LastIndexOf(s, sep)
    case None => s
    case Some(i) => s[..i]
  }

  /** The head is determined by where the last separator sits. */
  lemma {:induction false} RSplitHeadOf(head: string, sep: char, tail: string)
    requires sep !in tail
    ensures RSplitHead(head + [sep] + tail, sep) == head
  {
    var s := head + [sep] + tail;
    var r := RSplitHead(s, sep);
    assert s[|head|] == sep;
    assert sep in s;
    assert |r| == |head|;
    assert s[..|head|] == head;
  }
}
