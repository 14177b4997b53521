/**
 * Python's `str.format`, for the templates the two processors use: the only
 * replacement fields are `{}` (next automatic argument) and `{d}` with `d`
 * one decimal digit (argument `d`). Any other brace, and a field naming a
 * missing argument, makes Python raise; here the result is None.
 */
module StrFormat {
  import opened Wrappers
  import opened Text

  predicate NoBraces(s: string) {
    forall i :: 0 <= i < |s| ==> s[i] != '{' && s[i] != '}'
  }

  function Prepend(s: string, r: Option<string>): Option<string> {
    if r.Some? then Some(s + r.value) else None
  }

  /** Formats `t` when `next` is the index the next `{}` field takes. */
  function FormatFrom(t: string, args: seq<string>, next: nat): Option<string>
    decreases |t|
  {
    if t == [] then Some([])
    else if t[0] == '{' then
      if |t| >= 2 && t[1] == '}' then
        if next < |args| then Prepend(args[next], FormatFrom(t[2..], args, next + 1)) else None
      else if |t| >= 3 && IsDigit(t[1]) && t[2] == '}' && DigitValue(t[1]) < |args| then
        Prepend(args[DigitValue(t[1])], FormatFrom(t[3..], args, next))
      else None
    else if t[0] == '}' then None
    else Prepend([t[0]], FormatFrom(t[1..], args, next))
  }

  /** `template.format(*args)`. */
  function Format(template: string, args: seq<string>): Option<string> {
    FormatFrom(template, args, 0)
  }

  /** Text without braces is copied through unchanged. */
  lemma {:induction false} FormatLiteral(pre: string, rest: string, args: seq<string>, next: nat)
    requires NoBraces(pre)
    ensures FormatFrom(pre + rest, args, next) == Prepend(pre, FormatFrom(rest, args, next))
  {
    if pre == [] {
      assert pre + rest == rest;
      var r := FormatFrom(rest, args, next);
      if r.Some? {
        assert pre + r.value == r.value;
      }
    } else {
      var t := pre + rest;
      assert t[0] == pre[0] && t[0] != '{' && t[0] != '}';
      assert t[1..] == pre[1..] + rest;
      assert FormatFrom(t, args, next) == Prepend([pre[0]], FormatFrom(pre[1..] + rest, args, next));
      FormatLiteral(pre[1..], rest, args, next);
      var r := FormatFrom(rest, args, next);
      if r.Some? {
        assert [pre[0]] + (pre[1..] + r.value) == pre + r.value;
      }
    }
  }

  /** A `{}` field takes the next automatic argument. */
  lemma FormatAutoField(rest: string, args: seq<string>, next: nat)
    requires next < |args|
    ensures FormatFrom("{}" + rest, args, next) == Prepend(args[next], FormatFrom(rest, args, next + 1))
  {
    assert ("{}" + rest)[2..] == rest;
  }

  /** A `{d}` field takes argument `d`. */
  lemma FormatIndexedField(d: char, rest: string, args: seq<string>, next: nat)
    requires IsDigit(d) && DigitValue(d) < |args|
    ensures FormatFrom(['{', d, '}'] + rest, args, next)
         == Prepend(args[DigitValue(d)], FormatFrom(rest, args, next))
  {
    assert (['{', d, '}'] + rest)[3..] == rest;
  }

  /** Literal text followed by a `{}` field. */
  lemma FormatSegment(p: string, rest: string, args: seq<string>, next: nat)
    requires NoBraces(p) && next < |args|
    ensures FormatFrom(p + "{}" + rest, args, next)
         == Prepend(p + args[next], FormatFrom(rest, args, next + 1))
  {
    assert p + "{}" + rest == p + ("{}" + rest);
    FormatLiteral(p, "{}" + rest, args, next);
    FormatAutoField(rest, args, next);
    var r := FormatFrom(rest, args, next + 1);
    if r.Some? {
      assert p + (args[next] + r.value) == p + args[next] + r.value;
    }
  }

  /** Two `{}` fields take the first and the second argument, in order. */
  lemma FormatTwoAuto(p1: string, p2: string, p3: string, a: string, b: string)
    requires NoBraces(p1) && NoBraces(p2) && NoBraces(p3)
    ensures Format(p1 + "{}" + p2 + "{}" + p3, [a, b]) == Some(p1 + a + p2 + b + p3)
  {
    var args := [a, b];
    FormatLiteral(p3, [], args, 2);
    assert p3 + [] == p3;
    FormatSegment(p2, p3, args, 1);
    assert p1 + "{}" + p2 + "{}" + p3 == p1 + "{}" + (p2 + "{}" + p3);
    FormatSegment(p1, p2 + "{}" + p3, args, 0);
    assert p1 + a + (p2 + b + p3) == p1 + a + p2 + b + p3;
  }

  /** A `{0}` field takes the first argument. */
  lemma FormatOneIndexed(p1: string, p2: string, a: string)
    requires NoBraces(p1) && NoBraces(p2)
    ensures Format(p1 + "{0}" + p2, [a]) == Some(p1 + a + p2)
  {
    var args := [a];
    FormatLiteral(p2, [], args, 0);
    assert p2 + [] == p2;
    assert "{0}" == ['{', '0', '}'];
    FormatIndexedField('0', p2, args, 0);
    assert FormatFrom("{0}" + p2, args, 0) == Some(a + p2);
    FormatLiteral(p1, "{0}" + p2, args, 0);
    assert p1 + "{0}" + p2 == p1 + ("{0}" + p2);
    assert p1 + (a + p2) == p1 + a + p2;
  }
}
