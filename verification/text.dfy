/**
 Character-level helpers the script relies on implicitly through Python's
 string formatting and slicing: decimal rendering of integers (what `str(n)`
 and `"{0}".format(n)` produce), the `s[-k:]` suffix slice, and joining words
 with a single separator. Each rendering comes with its inverse and a
 round-trip lemma, so that the message and log-line contracts elsewhere can be
 stated as "the value can be read back".
 */
module Text {
  import opened Wrappers

  predicate IsDigit(c: char) {
    '0' <= c <= '9'
  }

  predicate AllDigits(s: string) {
    forall i :: 0 <= i < |s| ==> IsDigit(s[i])
  }

  function DigitChar(d: nat): (c: char)
    requires d < 10
    ensures IsDigit(c)
    ensures c as int - '0' as int == d
  {
    (d + '0' as int) as char
  }

  function DigitValue(c: char): (d: nat)
    requires IsDigit(c)
    ensures d < 10
    ensures DigitChar(d) == c
  {
    c as int - '0' as int
  }

  /** A digit string as Python prints a non-negative int: non-empty, no leading zero except "0" itself. */
  predicate Canonical(d: string) {
    |d| >= 1 && AllDigits(d) && (|d| == 1 || d[0] != '0')
  }

  /** Decimal digits of `n` without leading zeros, as Python's `str` prints a non-negative int. */
  function NatToString(n: nat): (s: string)
    ensures Canonical(s)
    ensures s[0] == '0' <==> n == 0
    decreases n
  {
    if n < 10 then [DigitChar(n)] else NatToString(n / 10) + [DigitChar(n % 10)]
  }

  /** Python's `str` of an int: a minus sign before the digits of the magnitude when negative. */
  function IntToString(i: int): (s: string)
    ensures |s| >= 1
    ensures i >= 0 ==> AllDigits(s)
    ensures i < 0 ==> s[0] == '-' && |s| >= 2 && AllDigits(s[1..])
  {
    if i < 0 then "-" + NatToString(-i) else NatToString(i)
  }

  /** The value of a string of decimal digits, read most significant digit first. */
  function ParseNat(s: string): nat
    requires AllDigits(s)
    decreases |s|
  {
    if |s| == 0 then 0 else ParseNat(s[..|s| - 1]) * 10 + DigitValue(s[|s| - 1])
  }

  lemma {:induction false} ParseNatOfNatToString(n: nat)
    ensures ParseNat(NatToString(n)) == n
    decreases n
  {
    var s := NatToString(n);
    if n >= 10 {
      var p := NatToString(n / 10);
      assert s == p + [DigitChar(n % 10)];
      assert s[..|s| - 1] == p;
      ParseNatOfNatToString(n / 10);
    }
  }

  /** A digit string that does not start with '0' denotes a positive number. */
  lemma {:induction false} ParseNatPositive(d: string)
    requires |d| >= 1 && AllDigits(d) && d[0] != '0'
    ensures ParseNat(d) > 0
    decreases |d|
  {
    if |d| > 1 {
      ParseNatPositive(d[..|d| - 1]);
    }
  }

  /** Printing undoes parsing on canonical digit strings. */
  lemma {:induction false} NatToStringOfParseNat(d: string)
    requires Canonical(d)
    ensures NatToString(ParseNat(d)) == d
    decreases |d|
  {
    var c := d[|d| - 1];
    var p := d[..|d| - 1];
    if |d| == 1 {
      assert p == [];
      assert d == [c];
    } else {
      ParseNatPositive(p);
      NatToStringOfParseNat(p);
      var n := ParseNat(d);
      assert n == ParseNat(p) * 10 + DigitValue(c);
      assert n / 10 == ParseNat(p) && n % 10 == DigitValue(c);
      assert d == p + [c];
    }
  }

  /**
   Python's `s[-k:]`: the last `k` characters, or the whole string when it is
   shorter; for `k` = 0 the slice is `s[0:]`, also the whole string.
   */
  function TailSlice(s: string, k: nat): (t: string)
    ensures |t| == if k == 0 || |s| < k then |s| else k
    ensures s == s[..|s| - |t|] + t
  {
    if k == 0 || |s| < k then s else s[|s| - k..]
  }

  predicate HasPrefix(s: string, prefix: string) {
    |prefix| <= |s| && s[..|prefix|] == prefix
  }

  predicate HasSuffix(s: string, suffix: string) {
    |suffix| <= |s| && s[|s| - |suffix|..] == suffix
  }

  /**
   Comparing `s[-k:]` with a non-empty literal of length `k` is the same as
   asking for that suffix; compared with the empty literal, it holds only for
   the empty string.
   */
  lemma TailSliceEqualsIffSuffix(s: string, suffix: string)
    ensures |suffix| > 0 ==> (TailSlice(s, |suffix|) == suffix <==> HasSuffix(s, suffix))
    ensures |suffix| == 0 ==> (TailSlice(s, |suffix|) == suffix <==> s == "")
  {
  }

  predicate Contains(s: string, c: char) {
    exists i :: 0 <= i < |s| && s[i] == c
  }

  /** The words joined with one separator between neighbours, as `sep.join(words)` in Python. */
  function Join(words: seq<string>, sep: char): (s: string)
    ensures |words| == 0 ==> s == ""
    decreases |words|
  {
    if |words| == 0 then ""
    else if |words| == 1 then words[0]
    else words[0] + [sep] + Join(words[1..], sep)
  }

  /** Index of the first occurrence of `c` in `s`, if any. */
  function IndexOf(s: string, c: char): (r: Option<nat>)
    ensures r.None? <==> !Contains(s, c)
    ensures r.Some? ==> r.value < |s| && s[r.value] == c && !Contains(s[..r.value], c)
    decreases |s|
  {
    if |s| == 0 then None
    else if s[0] == c then Some(0)
    else
      match IndexOf(s[1..], c)
      case None => None
      case Some(k) =>
        assert s[1..][..k] == s[1..k + 1];
        Some(k + 1)
  }

  /** The pieces of `s` between occurrences of `sep`, as Python's `s.split(sep)`. */
  function Split(s: string, sep: char): (words: seq<string>)
    ensures |words| >= 1
    decreases |s|
  {
    match IndexOf(s, sep)
    case None => [s]
    case Some(k) => [s[..k]] + Split(s[k + 1..], sep)
  }

  /** Splitting undoes joining, provided no word contains the separator. */
  lemma {:induction false} SplitJoin(words: seq<string>, sep: char)
    requires |words| >= 1
    requires forall i :: 0 <= i < |words| ==> !Contains(words[i], sep)
    ensures Split(Join(words, sep), sep) == words
    decreases |words|
  {
    if |words| > 1 {
      var w := words[0];
      var rest := Join(words[1..], sep);
      var s := Join(words, sep);
      assert s == w + [sep] + rest;
      assert s[..|w|] == w;
      assert s[|w|] == sep;
      assert IndexOf(s, sep) == Some(|w|);
      assert s[|w| + 1..] == rest;
      SplitJoin(words[1..], sep);
      assert [words[0]] + words[1..] == words;
    } else {
      assert IndexOf(words[0], sep) == None;
    }
  }

  /** Length of the longest run of digits that ends the string. */
  function TrailingDigitCount(s: string): (k: nat)
    ensures k <= |s|
    ensures forall i :: |s| - k <= i < |s| ==> IsDigit(s[i])
    ensures k < |s| ==> !IsDigit(s[|s| - k - 1])
    decreases |s|
  {
    if |s| == 0 || !IsDigit(s[|s| - 1]) then 0
    else TrailingDigitCount(s[..|s| - 1]) + 1
  }

  /** The first occurrence of `c` in `x + [c] + y` is right after `x` when `x` lacks `c`. */
  lemma IndexOfAfter(x: string, c: char, y: string)
    requires !Contains(x, c)
    ensures IndexOf(x + [c] + y, c) == Some(|x|)
  {
    var s := x + [c] + y;
    assert s[|x|] == c;
    assert forall i :: 0 <= i < |x| ==> s[i] == x[i];
  }

  /** Digits appended after a non-digit are exactly the trailing run of digits. */
  lemma {:induction false} TrailingDigitCountOfAppend(p: string, d: string)
    requires AllDigits(d)
    requires |p| > 0 && !IsDigit(p[|p| - 1])
    ensures TrailingDigitCount(p + d) == |d|
    decreases |d|
  {
    var s := p + d;
    if |d| > 0 {
      assert s[..|s| - 1] == p + d[..|d| - 1];
      TrailingDigitCountOfAppend(p, d[..|d| - 1]);
    } else {
      assert s == p;
    }
  }
}
