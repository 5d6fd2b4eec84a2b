/**
 * The character-level pieces the recognizers are built from: nom's `digit1`,
 * the decimal reading `str::parse` gives a run of digits, and its inverse.
 */
module Lexical {
  import opened Wrappers

  predicate IsDigit(c: char) {
    '0' <= c <= '9'
  }

  predicate AllDigits(s: string) {
    forall k :: 0 <= k < |s| ==> IsDigit(s[k])
  }

  /** `t` is what is left of `s` after some of its leading characters were consumed. */
  predicate IsSuffix(t: string, s: string) {
    |t| <= |s| && t == s[|s| - |t|..]
  }

  /** What was consumed, followed by what is left, is the input. */
  lemma SuffixSplit(t: string, s: string)
    requires IsSuffix(t, s)
    ensures s[..|s| - |t|] + t == s
  {
    assert s[..|s| - |t|] + s[|s| - |t|..] == s;
  }

  /** Two strings followed by the same text are equal. */
  lemma CancelSuffix(a: string, b: string, r: string)
    requires a + r == b + r
    ensures a == b
  {
    assert a == (a + r)[..|a|] && b == (b + r)[..|b|];
  }

  /** The longest prefix of `s` made of decimal digits. */
  function LeadingDigits(s: string): (run: string)
    ensures run <= s && AllDigits(run)
    ensures |run| == |s| || !IsDigit(s[|run|])
  {
    if s != [] && IsDigit(s[0]) then [s[0]] + LeadingDigits(s[1..]) else []
  }

  /** nom's `digit1`: the maximal run of at least one digit, and what follows it. */
  function Digit1(s: string): (r: Option<(string, string)>)
    ensures r.Some? <==> s != [] && IsDigit(s[0])
    ensures r.Some? ==> s == r.value.0 + r.value.1
    ensures r.Some? ==> r.value.0 != [] && AllDigits(r.value.0)
    ensures r.Some? ==> r.value.1 == [] || !IsDigit(r.value.1[0])
  {
    var run := LeadingDigits(s);
    if run == [] then None else Some((run, s[|run|..]))
  }

  function DigitValue(c: char): nat
    requires IsDigit(c)
  {
    (c as int) - ('0' as int)
  }

  function DigitChar(d: nat): (c: char)
    requires d < 10
    ensures IsDigit(c) && DigitValue(c) == d
  {
    ('0' as int + d) as char
  }

  /** The value of a run of decimal digits, most significant first. */
  function DecimalValue(ds: string): (v: nat)
    requires AllDigits(ds)
    ensures ds != [] && ds[0] == '0' ==> v == DecimalValue(ds[1..])
    decreases |ds|
  {
    if ds == [] then 0
    else
      var init := ds[..|ds| - 1];
      assert |ds| > 1 ==> ds[1..][..|ds| - 2] == init[1..];
      10 * DecimalValue(init) + DigitValue(ds[|ds| - 1])
  }

  /** `str::parse` of a digit run into the VM's unsigned operand type, whose
      largest value is `max`: a value that does not fit is an error. */
  function ParseUInt(ds: string, max: nat): (r: Option<nat>)
    requires AllDigits(ds)
    ensures r.Some? <==> DecimalValue(ds) <= max
    ensures r.Some? ==> r.value == DecimalValue(ds) && r.value <= max
  {
    var n := DecimalValue(ds);
    if n <= max then Some(n) else None
  }

  /** The canonical decimal spelling of `n`, without leading zeros. */
  function DecimalString(n: nat): (ds: string)
    ensures ds != [] && AllDigits(ds)
    ensures DecimalValue(ds) == n
    ensures ds[0] == '0' ==> n == 0
    decreases n
  {
    if n < 10 then [DigitChar(n)]
    else
      var ds := DecimalString(n / 10) + [DigitChar(n % 10)];
      assert ds[..|ds| - 1] == DecimalString(n / 10);
      ds
  }

  /** Reading the maximal digit run of a decimal spelling followed by a non-digit
      gives back exactly the spelling. */
  lemma {:induction false} LeadingDigitsOfRun(ds: string, t: string)
    requires AllDigits(ds)
    requires t == [] || !IsDigit(t[0])
    ensures LeadingDigits(ds + t) == ds
  {
    if ds == [] {
    } else {
      assert (ds + t)[1..] == ds[1..] + t;
      LeadingDigitsOfRun(ds[1..], t);
    }
  }
}
