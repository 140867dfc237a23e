/**
 * The JavaScript string and array built-ins the generator relies on:
 * `Array.prototype.join`, `String.prototype.replace(/\./g, "$")`,
 * `split(".")` followed by taking the last piece, and the decimal
 * rendering of an integer inside a template literal.
 */
module Strings {

  /** `xs.join(sep)`: the separator sits between neighbours, never after the last one. */
  function Join(xs: seq<string>, sep: string): string
  {
    if |xs| == 0 then ""
    else if |xs| == 1 then xs[0]
    else xs[0] + sep + Join(xs[1..], sep)
  }

  /** Joining one more element appends a separator and that element. */
  lemma {:induction false} JoinSnoc(xs: seq<string>, x: string, sep: string)
    requires |xs| > 0
    ensures Join(xs + [x], sep) == Join(xs, sep) + sep + x
    decreases |xs|
  {
    var ys := xs + [x];
    assert ys[0] == xs[0];
    if |xs| == 1 {
      assert ys[1..] == [x];
    } else {
      assert ys[1..] == xs[1..] + [x];
      JoinSnoc(xs[1..], x, sep);
    }
  }

  /** Concatenation of a sequence of strings (a `reduce` with `+`). */
  function Concat(xs: seq<string>): string
  {
    if |xs| == 0 then "" else Concat(xs[..|xs| - 1]) + xs[|xs| - 1]
  }

  /**
   * The `reduce` idiom `(ret, x, i, list) => { ret += x; if (i !== list.length - 1) ret += sep; }`
   * over the first `n` items.
   */
  function ReduceSeparated(items: seq<string>, n: nat, sep: string): string
    requires n <= |items|
  {
    if n == 0 then ""
    else ReduceSeparated(items, n - 1, sep) + items[n - 1] + (if n - 1 != |items| - 1 then sep else "")
  }

  lemma {:induction false} ReduceSeparatedPrefix(items: seq<string>, n: nat, sep: string)
    requires 0 < n < |items|
    ensures ReduceSeparated(items, n, sep) == Join(items[..n], sep) + sep
  {
    if n == 1 {
      assert items[..1] == [items[0]];
    } else {
      ReduceSeparatedPrefix(items, n - 1, sep);
      assert items[..n] == items[..n - 1] + [items[n - 1]];
      JoinSnoc(items[..n - 1], items[n - 1], sep);
    }
  }

  /** The `reduce` idiom is `join`: a separator between neighbours, none after the last. */
  lemma ReduceSeparatedIsJoin(items: seq<string>, sep: string)
    ensures ReduceSeparated(items, |items|, sep) == Join(items, sep)
  {
    var n := |items|;
    if n == 1 {
      assert ReduceSeparated(items, 0, sep) == "";
    } else if n > 1 {
      ReduceSeparatedPrefix(items, n - 1, sep);
      assert items == items[..n - 1] + [items[n - 1]];
      JoinSnoc(items[..n - 1], items[n - 1], sep);
    }
  }

  /** `s.replace(/\./g, "$")`: every dot becomes a dollar sign. */
  function DotsToDollars(s: string): (r: string)
    ensures |r| == |s|
    ensures '.' !in r
    ensures forall i | 0 <= i < |s| :: r[i] == (if s[i] == '.' then '$' else s[i])
  {
    seq(|s|, i requires 0 <= i < |s| => if s[i] == '.' then '$' else s[i])
  }

  /** The last element of `s.split(".")`: everything after the last dot, or all of `s`. */
  function LastSegment(s: string): (r: string)
    ensures |r| <= |s| && r == s[|s| - |r|..]
    ensures '.' !in r
    ensures |r| < |s| ==> s[|s| - |r| - 1] == '.'
  {
    if |s| == 0 then ""
    else if s[|s| - 1] == '.' then ""
    else LastSegment(s[..|s| - 1]) + [s[|s| - 1]]
  }

  function DigitChar(d: nat): (c: char)
    requires d < 10
    ensures '0' <= c <= '9'
  {
    "0123456789"[d]
  }

  function NatToString(n: nat): (r: string)
    ensures |r| > 0
    ensures forall i | 0 <= i < |r| :: '0' <= r[i] <= '9'
  {
    if n < 10 then [DigitChar(n)] else NatToString(n / 10) + [DigitChar(n % 10)]
  }

  /** The number a string of decimal digits denotes. */
  function DigitsValue(s: string): nat
    requires forall i | 0 <= i < |s| :: '0' <= s[i] <= '9'
  {
    if s == [] then 0 else 10 * DigitsValue(s[..|s| - 1]) + (s[|s| - 1] as int - '0' as int)
  }

  /** The decimal text of `n` reads back as `n`, and has no leading zero unless it is `0`. */
  lemma {:induction false} NatToStringValue(n: nat)
    ensures DigitsValue(NatToString(n)) == n
    ensures NatToString(n)[0] == '0' <==> n == 0
  {
    if n >= 10 {
      NatToStringValue(n / 10);
      var r := NatToString(n);
      assert r[..|r| - 1] == NatToString(n / 10);
    }
  }

  /** `${n}` for an integer: decimal digits, with a leading minus sign when negative. */
  function IntToString(n: int): (r: string)
    ensures |r| > 0
    ensures (r[0] == '-') <==> n < 0
  {
    if n < 0 then "-" + NatToString(-n) else NatToString(n)
  }

  /** How many times `c` occurs in `s`. */
  function Occurrences(s: string, c: char): nat
  {
    if |s| == 0 then 0 else Occurrences(s[..|s| - 1], c) + (if s[|s| - 1] == c then 1 else 0)
  }

  lemma {:induction false} OccurrencesAppend(a: string, b: string, c: char)
    ensures Occurrences(a + b, c) == Occurrences(a, c) + Occurrences(b, c)
    decreases |b|
  {
    if |b| == 0 {
      assert a + b == a;
    } else {
      var s, t := a + b, b[..|b| - 1];
      assert s[..|s| - 1] == a + t;
      OccurrencesAppend(a, t, c);
      var last := if b[|b| - 1] == c then 1 else 0;
      assert Occurrences(s, c) == Occurrences(a + t, c) + last;
      assert Occurrences(b, c) == Occurrences(t, c) + last;
    }
  }

  lemma {:induction false} OccurrencesNone(s: string, c: char)
    requires c !in s
    ensures Occurrences(s, c) == 0
    decreases |s|
  {
    if |s| > 0 {
      OccurrencesNone(s[..|s| - 1], c);
    }
  }
}
