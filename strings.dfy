/** String helpers shared by the models: ASCII case mapping, prefix and
    substring tests, the digit filter `replace(/\D/g, '')`, and decimal
    rendering and parsing of integers. */
module Strings {

  predicate IsDigit(c: char) { '0' <= c <= '9' }

  predicate AllDigits(s: string) { forall i :: 0 <= i < |s| ==> IsDigit(s[i]) }

  /** Lower-cases one character (ASCII letters only). */
  function LowerChar(c: char): (r: char)
    ensures 'A' <= c <= 'Z' ==> r as int == c as int + 32
    ensures !('A' <= c <= 'Z') ==> r == c
  {
    if 'A' <= c <= 'Z' then (c as int + 32) as char else c
  }

  function Lower(s: string): (r: string)
    ensures |r| == |s|
    ensures forall i :: 0 <= i < |s| ==> r[i] == LowerChar(s[i])
  {
    if s == [] then [] else [LowerChar(s[0])] + Lower(s[1..])
  }

  lemma {:induction false} LowerAppend(a: string, b: string)
    ensures Lower(a + b) == Lower(a) + Lower(b)
  {
    var l, la, lb := Lower(a + b), Lower(a), Lower(b);
    assert |l| == |la + lb|;
    forall i | 0 <= i < |l| ensures l[i] == (la + lb)[i] {
      if i < |a| { assert (a + b)[i] == a[i]; } else { assert (a + b)[i] == b[i - |a|]; }
    }
  }

  /** The ASCII part of JavaScript's white space and line terminators. */
  predicate IsSpace(c: char)
  {
    c == ' ' || c == '\t' || c == '\n' || c == '\r' || c == '\U{000B}' || c == '\U{000C}'
  }

  /** `s.trimStart()`. */
  function TrimStart(s: string): (r: string)
    ensures |r| <= |s| && r == s[|s| - |r|..]
    ensures |r| > 0 ==> !IsSpace(r[0])
    ensures forall i :: 0 <= i < |s| - |r| ==> IsSpace(s[i])
  {
    if s != [] && IsSpace(s[0]) then TrimStart(s[1..]) else s
  }

  /** `s.trim()` is empty: every character is white space. */
  predicate Blank(s: string)
  {
    forall i :: 0 <= i < |s| ==> IsSpace(s[i])
  }

  /** Trimming the start leaves nothing exactly when the text is blank. */
  lemma TrimStartEmptyIffBlank(s: string)
    ensures TrimStart(s) == "" <==> Blank(s)
  {
    if !Blank(s) {
      var r := TrimStart(s);
      var i :| 0 <= i < |s| && !IsSpace(s[i]);
      assert r != "";
    }
  }

  predicate StartsWith(s: string, prefix: string) {
    |prefix| <= |s| && s[..|prefix|] == prefix
  }

  /** `s.includes(sub)` / Python's `sub in s`. */
  predicate Contains(s: string, sub: string)
    decreases |s|
  {
    StartsWith(s, sub) || (|s| > 0 && Contains(s[1..], sub))
  }

  lemma {:induction false} ContainsAt(s: string, sub: string, k: nat)
    requires k + |sub| <= |s| && s[k..k + |sub|] == sub
    ensures Contains(s, sub)
    decreases k
  {
    if k > 0 {
      assert s[1..][k - 1..k - 1 + |sub|] == sub;
      ContainsAt(s[1..], sub, k - 1);
    }
  }

  lemma {:induction false} ContainsWitness(s: string, sub: string) returns (k: nat)
    requires Contains(s, sub)
    ensures k + |sub| <= |s| && s[k..k + |sub|] == sub
    decreases |s|
  {
    if StartsWith(s, sub) {
      k := 0;
    } else {
      var j := ContainsWitness(s[1..], sub);
      k := j + 1;
      assert s[k..k + |sub|] == s[1..][j..j + |sub|];
    }
  }

  lemma EmptyContained(s: string)
    ensures Contains(s, "")
  {
    assert StartsWith(s, "");
  }

  /** `s.replace(/\D/g, '')`: the digits of `s`, in order. */
  function DigitsOf(s: string): (r: string)
    ensures AllDigits(r) && |r| <= |s|
    ensures AllDigits(s) ==> r == s
  {
    if s == [] then []
    else if IsDigit(s[0]) then [s[0]] + DigitsOf(s[1..])
    else DigitsOf(s[1..])
  }

  lemma {:induction false} DigitsOfAppend(a: string, b: string)
    ensures DigitsOf(a + b) == DigitsOf(a) + DigitsOf(b)
    decreases |a|
  {
    if a != [] {
      assert (a + b)[1..] == a[1..] + b;
      DigitsOfAppend(a[1..], b);
    } else {
      assert a + b == b;
    }
  }

  function DigitChar(d: nat): (c: char)
    requires d < 10
    ensures IsDigit(c)
  {
    ('0' as int + d) as char
  }

  function DigitValue(c: char): (d: nat)
    requires IsDigit(c)
    ensures d < 10 && DigitChar(d) == c
  {
    c as int - '0' as int
  }

  /** The decimal text JavaScript and Python give a non-negative integer. */
  function NatToString(n: nat): (r: string)
    ensures |r| >= 1 && AllDigits(r)
    ensures n > 0 ==> r[0] != '0'
    ensures n < 10 <==> |r| == 1
    decreases n
  {
    if n < 10 then [DigitChar(n)] else NatToString(n / 10) + [DigitChar(n % 10)]
  }

  /** `parseInt(s, 10)` on a string of digits. */
  function DigitsToNat(s: string): nat
    requires AllDigits(s)
  {
    if s == [] then 0 else DigitsToNat(s[..|s| - 1]) * 10 + DigitValue(s[|s| - 1])
  }

  lemma {:induction false} DigitsToNatOfNatToString(n: nat)
    ensures DigitsToNat(NatToString(n)) == n
    decreases n
  {
    var r := NatToString(n);
    if n >= 10 {
      assert r[..|r| - 1] == NatToString(n / 10);
      DigitsToNatOfNatToString(n / 10);
    }
  }

  lemma {:induction false} NatToStringInjective(m: nat, n: nat)
    requires NatToString(m) == NatToString(n)
    ensures m == n
  {
    DigitsToNatOfNatToString(m);
    DigitsToNatOfNatToString(n);
  }

  /** `${i}` for an integer. */
  function IntToString(i: int): (r: string)
    ensures |r| >= 1
    ensures i >= 0 ==> r == NatToString(i)
    ensures i < 0 ==> r[0] == '-' && r[1..] == NatToString(-i)
  {
    if i >= 0 then NatToString(i) else "-" + NatToString(-i)
  }

  /** `s.padStart(2, '0')`. */
  function PadStart2(s: string): (r: string)
    ensures |s| >= 2 ==> r == s
    ensures |s| < 2 ==> |r| == 2 && r[2 - |s|..] == s
    ensures forall i :: 0 <= i < |r| - |s| ==> r[i] == '0'
  {
    if |s| == 0 then "00" else if |s| == 1 then "0" + s else s
  }

  /** `parts.join(sep)`. */
  function Join(parts: seq<string>, sep: string): string
  {
    if |parts| == 0 then ""
    else if |parts| == 1 then parts[0]
    else parts[0] + sep + Join(parts[1..], sep)
  }

  /** Number of occurrences of character `c` in `s`. */
  function CountChar(s: string, c: char): nat
  {
    if s == [] then 0 else (if s[0] == c then 1 else 0) + CountChar(s[1..], c)
  }

  lemma {:induction false} CountCharAppend(a: string, b: string, c: char)
    ensures CountChar(a + b, c) == CountChar(a, c) + CountChar(b, c)
    decreases |a|
  {
    if a != [] {
      assert (a + b)[1..] == a[1..] + b;
      CountCharAppend(a[1..], b, c);
    } else {
      assert a + b == b;
    }
  }

  lemma {:induction false} CountCharAbsent(s: string, c: char)
    requires forall i :: 0 <= i < |s| ==> s[i] != c
    ensures CountChar(s, c) == 0
    decreases |s|
  {
    if s != [] { CountCharAbsent(s[1..], c); }
  }

  lemma {:induction false} JoinCount(parts: seq<string>, sep: string, c: char)
    requires forall i :: 0 <= i < |parts| ==> CountChar(parts[i], c) == 1
    requires CountChar(sep, c) == 0
    ensures CountChar(Join(parts, sep), c) == |parts|
    decreases |parts|
  {
    if |parts| > 1 {
      JoinCount(parts[1..], sep, c);
      CountCharAppend(parts[0] + sep, Join(parts[1..], sep), c);
      CountCharAppend(parts[0], sep, c);
    } else if |parts| == 0 {
      assert Join(parts, sep) == "";
    }
  }
}
