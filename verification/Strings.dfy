/** Splitting, joining and decimal text. */
module Strings {
  /** The part of `s` before the first character of `stops`. */
  function Before(s: string, stops: set<char>): (r: string)
    ensures r <= s
    ensures forall i :: 0 <= i < |r| ==> r[i] !in stops
    ensures |r| < |s| ==> s[|r|] in stops
  {
    if s == "" || s[0] in stops then "" else [s[0]] + Before(s[1..], stops)
  }

  function AsciiLower(s: string): (r: string)
    ensures |r| == |s|
    ensures forall i :: 0 <= i < |s| ==> r[i] == if 'A' <= s[i] <= 'Z' then ((s[i] as int) + 32) as char else s[i]
  {
    seq(|s|, i requires 0 <= i < |s| => if 'A' <= s[i] <= 'Z' then ((s[i] as int) + 32) as char else s[i])
  }

  function Join(parts: seq<string>, sep: char): string {
    if parts == [] then ""
    else if |parts| == 1 then parts[0]
    else parts[0] + [sep] + Join(parts[1..], sep)
  }

  /** Splits at every `sep`; the empty string has one empty part. */
  function Split(s: string, sep: char): (parts: seq<string>)
    ensures |parts| > 0
    decreases |s|
  {
    var head := Before(s, {sep});
    if head == s then [s] else [head] + Split(s[|head| + 1..], sep)
  }

  ghost predicate Free(s: string, sep: char) {
    forall i :: 0 <= i < |s| ==> s[i] != sep
  }

  ghost predicate AllFree(parts: seq<string>, sep: char) {
    forall i :: 0 <= i < |parts| ==> Free(parts[i], sep)
  }

  lemma BeforeSeparator(a: string, sep: char, b: string)
    requires Free(a, sep)
    ensures Before(a + [sep] + b, {sep}) == a
  {
    var s := a + [sep] + b;
    assert s[|a|] == sep;
    assert forall i :: 0 <= i < |a| ==> s[i] == a[i];
  }

  lemma BeforeAll(a: string, sep: char)
    requires Free(a, sep)
    ensures Before(a, {sep}) == a
  {
  }

  lemma {:induction false} SplitUndoesJoin(parts: seq<string>, sep: char)
    requires parts != [] && AllFree(parts, sep)
    ensures Split(Join(parts, sep), sep) == parts
  {
    if |parts| == 1 {
      BeforeAll(parts[0], sep);
    } else {
      var rest := Join(parts[1..], sep);
      BeforeSeparator(parts[0], sep, rest);
      assert (parts[0] + [sep] + rest)[|parts[0]| + 1..] == rest;
      SplitUndoesJoin(parts[1..], sep);
    }
  }

  lemma {:induction false} JoinConcat(a: seq<string>, b: seq<string>, sep: char)
    requires a != [] && b != []
    ensures Join(a + b, sep) == Join(a, sep) + [sep] + Join(b, sep)
  {
    assert (a + b)[1..] == a[1..] + b;
    if |a| > 1 {
      JoinConcat(a[1..], b, sep);
      var x, y := Join(a[1..], sep), Join(b, sep);
      assert a[0] + [sep] + (x + [sep] + y) == a[0] + [sep] + x + [sep] + y;
    } else {
      assert a[1..] + b == b;
    }
  }

  lemma {:induction false} SplitIsFree(s: string, sep: char)
    ensures AllFree(Split(s, sep), sep)
    decreases |s|
  {
    var head := Before(s, {sep});
    if head != s {
      SplitIsFree(s[|head| + 1..], sep);
    }
  }

  lemma {:induction false} JoinUndoesSplit(s: string, sep: char)
    ensures Join(Split(s, sep), sep) == s
    decreases |s|
  {
    var head := Before(s, {sep});
    if head != s {
      var rest := s[|head| + 1..];
      JoinUndoesSplit(rest, sep);
      JoinConcat([head], Split(rest, sep), sep);
      assert head + [sep] + rest == s;
    }
  }

  function Digits(n: nat): (s: string)
    ensures s != "" && forall i :: 0 <= i < |s| ==> '0' <= s[i] <= '9'
  {
    if n < 10 then [('0' as int + n) as char] else Digits(n / 10) + [('0' as int + n % 10) as char]
  }

  /** The text the formatter prints for a signed integer. */
  function Decimal(n: int): string {
    if n < 0 then "-" + Digits(-n) else Digits(n)
  }

  function Magnitude(s: string): int {
    if s == "" then 0 else 10 * Magnitude(s[..|s| - 1]) + (s[|s| - 1] as int - '0' as int)
  }

  lemma {:induction false} DigitsHaveMagnitude(n: nat)
    ensures Magnitude(Digits(n)) == n
  {
    if n < 10 {
      assert Digits(n)[..0] == "";
    } else {
      var shorter := Digits(n / 10);
      assert Digits(n)[..|Digits(n)| - 1] == shorter;
      DigitsHaveMagnitude(n / 10);
    }
  }

  lemma DecimalIsInjective(a: int, b: int)
    requires Decimal(a) == Decimal(b)
    ensures a == b
  {
    DigitsHaveMagnitude(if a < 0 then -a else a);
    DigitsHaveMagnitude(if b < 0 then -b else b);
    assert Decimal(a)[0] == Decimal(b)[0];
    if a < 0 && b < 0 {
      assert Decimal(a)[1..] == Digits(-a) && Decimal(b)[1..] == Digits(-b);
    }
  }

  lemma DecimalIsFree(n: int, sep: char)
    requires sep != '-' && !('0' <= sep <= '9')
    ensures Free(Decimal(n), sep)
  {
  }
}
