/** String helpers the components rely on: ASCII case folding, prefix and
    substring tests, JavaScript's `||` on a possibly missing string, decimal
    rendering of integers and its inverse, `padStart(2, "0")` and
    `split(c)[0]`. */
module Text {
  import opened Wrappers

  predicate IsDigit(c: char) { '0' <= c <= '9' }

  predicate AllDigits(s: string) { forall i :: 0 <= i < |s| ==> IsDigit(s[i]) }

  /** `toLowerCase` on one character, for the ASCII letters only. */
  function LowerChar(c: char): char
  {
    if 'A' <= c <= 'Z' then (c as int + 32) as char else c
  }

  function ToLower(s: string): (r: string)
    ensures |r| == |s|
    ensures forall i :: 0 <= i < |s| ==> r[i] == LowerChar(s[i])
  {
    seq(|s|, i requires 0 <= i < |s| => LowerChar(s[i]))
  }

  /** Lower-casing twice is lower-casing once. */
  lemma ToLowerIdempotent(s: string)
    ensures ToLower(ToLower(s)) == ToLower(s)
  {
    var once := ToLower(s);
    assert forall i :: 0 <= i < |s| ==> ToLower(once)[i] == once[i];
  }

  predicate StartsWith(s: string, prefix: string)
  {
    |prefix| <= |s| && s[..|prefix|] == prefix
  }

  predicate EndsWith(s: string, suffix: string)
  {
    |suffix| <= |s| && s[|s| - |suffix|..] == suffix
  }

  predicate OccursAt(s: string, t: string, i: nat)
  {
    i + |t| <= |s| && s[i..i + |t|] == t
  }

  /** `s.includes(t)`. */
  predicate Includes(s: string, t: string)
  {
    exists i: nat | i <= |s| :: OccursAt(s, t, i)
  }

  /** A JavaScript value that is a non-empty string (truthy); `None` and `""` are falsy. */
  predicate Truthy(o: Option<string>)
  {
    o.Some? && o.value != ""
  }

  /** `o || fallback`. */
  function OrElse(o: Option<string>, fallback: string): (r: string)
    ensures Truthy(o) ==> r == o.value
    ensures !Truthy(o) ==> r == fallback
  {
    if Truthy(o) then o.value else fallback
  }

  function DigitChar(d: nat): (c: char)
    requires d < 10
    ensures IsDigit(c)
  {
    ('0' as int + d) as char
  }

  function DigitValue(c: char): (d: nat)
    requires IsDigit(c)
    ensures d < 10
  {
    c as int - '0' as int
  }

  /** The decimal digits of a string, read most significant first. */
  function ParseNat(s: string): nat
    requires AllDigits(s)
    decreases |s|
  {
    if s == [] then 0 else ParseNat(s[..|s| - 1]) * 10 + DigitValue(s[|s| - 1])
  }

  /** `String(n)` for a non-negative integer: its shortest decimal form,
      which reads back as `n`. */
  function NatToString(n: nat): (r: string)
    ensures |r| >= 1 && AllDigits(r)
    ensures ParseNat(r) == n
    ensures n < 10 <==> |r| == 1
    decreases n
  {
    if n < 10 then
      [DigitChar(n)]
    else
      var front := NatToString(n / 10);
      var r := front + [DigitChar(n % 10)];
      assert r[..|r| - 1] == front;
      r
  }

  /** The number of digits `String(n)` produces in the ranges the dates use. */
  lemma {:induction false} NatToStringLength(n: nat)
    ensures 10 <= n < 100 ==> |NatToString(n)| == 2
    ensures 1000 <= n < 10000 ==> |NatToString(n)| == 4
  {
    if n >= 10 {
      NatToStringLength(n / 10);
      if n >= 1000 {
        NatToStringLength(n / 100);
        NatToStringLength(n / 1000);
      }
    }
  }

  /** `String(i)` for any integer. */
  function IntToString(i: int): (r: string)
    ensures i >= 0 ==> AllDigits(r) && ParseNat(r) == i
    ensures i < 0 ==> |r| >= 2 && r[0] == '-' && AllDigits(r[1..]) && ParseNat(r[1..]) == -i
  {
    if i < 0 then
      var r := "-" + NatToString(-i);
      assert r[1..] == NatToString(-i);
      r
    else NatToString(i)
  }

  /** A leading zero does not change the value of a digit string. */
  lemma {:induction false} LeadingZero(s: string)
    requires AllDigits(s)
    ensures AllDigits("0" + s) && ParseNat("0" + s) == ParseNat(s)
  {
    if s != [] {
      var t := "0" + s;
      assert t[..|t| - 1] == "0" + s[..|s| - 1];
      LeadingZero(s[..|s| - 1]);
    }
  }

  /** `s.padStart(2, "0")`: strings of two or more characters are left alone. */
  function PadStart2(s: string): (r: string)
    ensures |r| == if |s| >= 2 then |s| else 2
    ensures EndsWith(r, s)
    ensures forall i :: 0 <= i < |r| - |s| ==> r[i] == '0'
  {
    if |s| >= 2 then s
    else if |s| == 1 then "0" + s
    else "00"
  }

  /** Padding a digit string keeps its value. */
  lemma PadStart2Value(s: string)
    requires AllDigits(s)
    ensures AllDigits(PadStart2(s)) && ParseNat(PadStart2(s)) == ParseNat(s)
  {
    if |s| == 1 {
      LeadingZero(s);
    } else if |s| == 0 {
      LeadingZero("0");
    }
  }

  /** `s.split(c)[0]`: everything before the first `c`, or all of `s`. */
  function BeforeFirst(s: string, c: char): (r: string)
    ensures StartsWith(s, r)
    ensures c !in r
    ensures |r| == |s| || s[|r|] == c
  {
    if s == [] then []
    else if s[0] == c then []
    else
      var rest := BeforeFirst(s[1..], c);
      assert s[1..][..|rest|] == rest;
      [s[0]] + rest
  }
}
