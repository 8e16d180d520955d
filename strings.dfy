/** The few string primitives of PHP that the engine relies on: a suffix test
    (the anchored `preg_match` on class names), `join`, and the decimal
    rendering of `%d` in `sprintf`. Each comes with the property the rest of
    the model uses. */
module Strings {

  /** `preg_match('/' . suffix . '$/', s)` read as a plain suffix test. */
  predicate EndsWith(s: string, suffix: string)
  {
    |suffix| <= |s| && s[|s| - |suffix|..] == suffix
  }

  /** `s` holds `part` somewhere as a contiguous piece. */
  ghost predicate Contains(s: string, part: string)
  {
    exists i, j :: 0 <= i <= j <= |s| && s[i..j] == part
  }

  /** A concatenation contains both of its pieces. */
  lemma ContainsEnds(a: string, b: string)
    ensures Contains(a + b, a) && Contains(a + b, b)
  {
    assert (a + b)[0..|a|] == a;
    assert (a + b)[|a|..|a| + |b|] == b;
  }

  /** What a piece contains, a concatenation with that piece contains. */
  lemma ContainsWithin(s: string, t: string, x: string)
    ensures Contains(s, x) ==> Contains(s + t, x)
    ensures Contains(t, x) ==> Contains(s + t, x)
  {
    if Contains(s, x) {
      var i, j :| 0 <= i <= j <= |s| && s[i..j] == x;
      assert (s + t)[i..j] == x;
    }
    if Contains(t, x) {
      var i, j :| 0 <= i <= j <= |t| && t[i..j] == x;
      assert (s + t)[|s| + i..|s| + j] == x;
    }
  }

  /** PHP `join(sep, parts)`: the parts in their given order, separated by `sep`. */
  function Join(sep: string, parts: seq<string>): (s: string)
    ensures |parts| == 1 ==> s == parts[0]
  {
    if |parts| == 0 then ""
    else if |parts| == 1 then parts[0]
    else parts[0] + sep + Join(sep, parts[1..])
  }

  /** Position of the first `c` in `s`, or `|s|` when there is none. */
  function IndexOf(s: string, c: char): (i: nat)
    ensures i <= |s|
    ensures i < |s| ==> s[i] == c
    ensures forall j :: 0 <= j < i ==> s[j] != c
  {
    if s == [] then 0
    else if s[0] == c then 0
    else 1 + IndexOf(s[1..], c)
  }

  /** Cuts `s` at every occurrence of `c`; the reference inverse of `Join`. */
  function Split(s: string, c: char): (parts: seq<string>)
    ensures |parts| >= 1
    decreases |s|
  {
    var i := IndexOf(s, c);
    if i == |s| then [s] else [s[..i]] + Split(s[i + 1..], c)
  }

  /** Joining with a one-character separator that occurs in none of the parts
      loses nothing: the parts, and their order, can be read back. */
  lemma {:induction false} SplitJoin(parts: seq<string>, c: char)
    requires |parts| >= 1
    requires forall i :: 0 <= i < |parts| ==> c !in parts[i]
    ensures Split(Join([c], parts), c) == parts
  {
    var p0 := parts[0];
    if |parts| == 1 {
      assert IndexOf(p0, c) == |p0|;
    } else {
      var rest := Join([c], parts[1..]);
      var s := Join([c], parts);
      assert s == p0 + [c] + rest;
      assert s[|p0|] == c;
      var i := IndexOf(s, c);
      assert i == |p0|;
      assert s[..i] == p0;
      assert s[i + 1..] == rest;
      SplitJoin(parts[1..], c);
      assert parts == [p0] + parts[1..];
    }
  }

  /** Two non-empty lists of parts free of the separator that join to the
      same string are the same list: `join` keeps order and content. */
  lemma JoinInjective(xs: seq<string>, ys: seq<string>, c: char)
    requires |xs| >= 1 && |ys| >= 1
    requires forall i :: 0 <= i < |xs| ==> c !in xs[i]
    requires forall i :: 0 <= i < |ys| ==> c !in ys[i]
    requires Join([c], xs) == Join([c], ys)
    ensures xs == ys
  {
    SplitJoin(xs, c);
    SplitJoin(ys, c);
  }

  /** Numeric value of a decimal digit. */
  function DigitValue(c: char): (d: nat)
    requires IsDigit(c)
    ensures d < 10
  {
    c as int - '0' as int
  }

  predicate IsDigit(c: char)
  {
    '0' <= c <= '9'
  }

  function DigitChar(d: nat): (c: char)
    requires d < 10
    ensures IsDigit(c) && DigitValue(c) == d
  {
    ('0' as int + d) as char
  }

  /** The number a string of decimal digits denotes (most significant first). */
  function DecimalValue(s: string): nat
    requires forall i :: 0 <= i < |s| ==> IsDigit(s[i])
  {
    if s == [] then 0
    else 10 * DecimalValue(s[..|s| - 1]) + DigitValue(s[|s| - 1])
  }

  /** `sprintf('%d', n)` for a non-negative `n`. */
  function NatToString(n: nat): (s: string)
    ensures |s| >= 1
    ensures forall i :: 0 <= i < |s| ==> IsDigit(s[i])
  {
    if n < 10 then [DigitChar(n)] else NatToString(n / 10) + [DigitChar(n % 10)]
  }

  /** `sprintf('%d', n)`: a minus sign, then the digits of the magnitude. */
  function IntToString(n: int): (s: string)
  {
    if n < 0 then "-" + NatToString(-n) else NatToString(n)
  }

  /** The digits printed for `n` read back as `n`. */
  lemma {:induction false} NatToStringRoundTrip(n: nat)
    ensures DecimalValue(NatToString(n)) == n
  {
    var s := NatToString(n);
    if n >= 10 {
      NatToStringRoundTrip(n / 10);
      assert s[..|s| - 1] == NatToString(n / 10);
    }
  }

  /** Rendering `n` loses nothing: it starts with '-' exactly for a negative
      `n`, and the digits after it read back as the magnitude. */
  lemma IntToStringRoundTrip(n: int)
    ensures var s := IntToString(n);
      |s| >= 1 && (s[0] == '-' <==> n < 0) &&
      (n < 0 ==> DecimalValue(s[1..]) == -n) &&
      (n >= 0 ==> DecimalValue(s) == n)
  {
    var s := IntToString(n);
    if n < 0 {
      NatToStringRoundTrip(-n);
      assert s[1..] == NatToString(-n);
    } else {
      NatToStringRoundTrip(n);
      assert IsDigit(s[0]);
    }
  }
}
