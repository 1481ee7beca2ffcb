/** The parts of Python's `str` semantics that the modelled code relies on:
    `lower()`, `startswith`, `endswith`, the `in` substring test, `<` on
    strings, `isspace()`/`strip()`, `rfind` and `str(int)`. */
module PyStr {

  /** ASCII case folding of one character: 'A'..'Z' become 'a'..'z' and every
      other character is kept. Python's `str.lower()` also folds non-ASCII cased
      letters, some into two characters; this model does not. */
  function LowerChar(c: char): char
  {
    if 'A' <= c <= 'Z' then (c as int + 32) as char else c
  }

  function Lower(s: string): (r: string)
    ensures |r| == |s|
    ensures forall i :: 0 <= i < |s| ==> r[i] == LowerChar(s[i])
  {
    seq(|s|, i requires 0 <= i < |s| => LowerChar(s[i]))
  }

  lemma LowerConcat(a: string, b: string)
    ensures Lower(a + b) == Lower(a) + Lower(b)
  {
  }

  /** Lower-casing twice is lower-casing once. */
  lemma LowerIdempotent(s: string)
    ensures Lower(Lower(s)) == Lower(s)
  {
  }

  predicate StartsWith(s: string, prefix: string)
  {
    |prefix| <= |s| && s[..|prefix|] == prefix
  }

  predicate EndsWith(s: string, suffix: string)
  {
    |suffix| <= |s| && s[|s| - |suffix|..] == suffix
  }

  /** Python's `sub in s`: `sub` occurs in `s` at some position. */
  predicate Contains(s: string, sub: string)
    decreases |s|
  {
    StartsWith(s, sub) || (|s| > 0 && Contains(s[1..], sub))
  }

  /** `Contains` agrees with "occurs at some index". */
  lemma {:induction false} ContainsAt(s: string, sub: string, k: nat)
    requires k + |sub| <= |s| && s[k..k + |sub|] == sub
    ensures Contains(s, sub)
    decreases k
  {
    if k > 0 {
      assert s[1..][k - 1..k - 1 + |sub|] == s[k..k + |sub|];
      ContainsAt(s[1..], sub, k - 1);
    }
  }

  lemma {:induction false} ContainsWitness(s: string, sub: string) returns (k: nat)
    requires Contains(s, sub)
    ensures k + |sub| <= |s| && s[k..k + |sub|] == sub
    decreases |s|
  {
    if StartsWith(s, sub) {
      k := 0;
    } else {
      var k' := ContainsWitness(s[1..], sub);
      k := k' + 1;
      assert s[k..k + |sub|] == s[1..][k'..k' + |sub|];
    }
  }

  /** Python's `a < b` on strings: lexicographic order on code points, a proper
      prefix being smaller. */
  predicate Less(a: string, b: string)
    decreases |a|
  {
    if |a| == 0 then |b| > 0
    else if |b| == 0 then false
    else if a[0] != b[0] then a[0] < b[0]
    else Less(a[1..], b[1..])
  }

  lemma {:induction false} LessIrreflexive(a: string)
    ensures !Less(a, a)
    decreases |a|
  {
    if |a| > 0 { LessIrreflexive(a[1..]); }
  }

  lemma {:induction false} LessTransitive(a: string, b: string, c: string)
    requires Less(a, b) && Less(b, c)
    ensures Less(a, c)
    decreases |a|
  {
    if |a| > 0 && |b| > 0 && |c| > 0 && a[0] == b[0] && b[0] == c[0] {
      LessTransitive(a[1..], b[1..], c[1..]);
    }
  }

  /** Two different strings are ordered one way or the other. */
  lemma {:induction false} LessTotal(a: string, b: string)
    requires a != b
    ensures Less(a, b) || Less(b, a)
    decreases |a|
  {
    if |a| > 0 && |b| > 0 && a[0] == b[0] {
      assert a == [a[0]] + a[1..] && b == [b[0]] + b[1..];
      LessTotal(a[1..], b[1..]);
    }
  }

  /** `str.isspace()` on one character: the characters Python classes as
      whitespace (bidirectional class WS, B or S, or category Zs). */
  predicate IsSpace(c: char)
  {
    var n := c as int;
    n == 0x20 || (0x09 <= n <= 0x0d) || (0x1c <= n <= 0x1f) || n == 0x85 || n == 0xa0
    || n == 0x1680 || (0x2000 <= n <= 0x200a) || n == 0x2028 || n == 0x2029
    || n == 0x202f || n == 0x205f || n == 0x3000
  }

  /** Number of leading whitespace characters. */
  function LeadingSpace(s: string): (n: nat)
    ensures n <= |s|
    ensures forall i :: 0 <= i < n ==> IsSpace(s[i])
    ensures n < |s| ==> !IsSpace(s[n])
  {
    if |s| == 0 || !IsSpace(s[0]) then 0 else 1 + LeadingSpace(s[1..])
  }

  /** Length of `s` once its trailing whitespace is dropped. */
  function TrailingCut(s: string): (n: nat)
    ensures n <= |s|
    ensures forall i :: n <= i < |s| ==> IsSpace(s[i])
    ensures n > 0 ==> !IsSpace(s[n - 1])
  {
    if |s| == 0 || !IsSpace(s[|s| - 1]) then |s| else TrailingCut(s[..|s| - 1])
  }

  /** `str.strip()` with no argument. */
  function Strip(s: string): (r: string)
    ensures |r| <= |s|
    ensures forall c :: c in r ==> c in s
    ensures |r| > 0 ==> !IsSpace(r[0]) && !IsSpace(r[|r| - 1])
    ensures (|s| == 0 || (!IsSpace(s[0]) && !IsSpace(s[|s| - 1]))) ==> r == s
  {
    var t := s[LeadingSpace(s)..];
    assert forall c :: c in t ==> c in s;
    t[..TrailingCut(t)]
  }

  /** Python's `s.rfind(c)` for one character: the last index holding `c`, or -1. */
  function RFind(s: string, c: char): (r: int)
    ensures -1 <= r < |s|
    ensures r >= 0 ==> s[r] == c
    ensures forall k :: r < k < |s| ==> s[k] != c
  {
    if |s| == 0 then -1
    else if s[|s| - 1] == c then |s| - 1
    else RFind(s[..|s| - 1], c)
  }

  predicate IsDigit(c: char) { '0' <= c <= '9' }

  predicate AllDigits(s: string) { forall i :: 0 <= i < |s| ==> IsDigit(s[i]) }

  function DigitChar(d: nat): (c: char)
    requires d < 10
    ensures IsDigit(c) && c as int - '0' as int == d
  {
    ('0' as int + d) as char
  }

  /** `str(n)` for a non-negative integer: its decimal digits. */
  function NatToString(n: nat): (r: string)
    ensures |r| >= 1 && AllDigits(r)
    decreases n
  {
    if n < 10 then [DigitChar(n)] else NatToString(n / 10) + [DigitChar(n % 10)]
  }

  /** `str(i)` for any integer. */
  function IntToString(i: int): (r: string)
    ensures |r| >= 1
    ensures (i < 0) == (r[0] == '-')
  {
    if i < 0 then "-" + NatToString(-i) else NatToString(i)
  }

  /** `int(s)` for a string of decimal digits. */
  function ParseDigits(s: string): nat
    requires AllDigits(s)
  {
    if |s| == 0 then 0 else ParseDigits(s[..|s| - 1]) * 10 + (s[|s| - 1] as int - '0' as int)
  }

  /** Reading the digits printed by `str(n)` gives `n` back. */
  lemma {:induction false} ParseNatToString(n: nat)
    ensures ParseDigits(NatToString(n)) == n
    decreases n
  {
    var r := NatToString(n);
    if n >= 10 {
      ParseNatToString(n / 10);
      assert r[..|r| - 1] == NatToString(n / 10);
    }
  }

  /** `str` is injective on integers. */
  lemma IntToStringInjective(i: int, j: int)
    requires IntToString(i) == IntToString(j)
    ensures i == j
  {
    if i < 0 {
      assert IntToString(i)[1..] == NatToString(-i);
      assert IntToString(j)[1..] == NatToString(-j);
      ParseNatToString(-i);
      ParseNatToString(-j);
    } else {
      ParseNatToString(i);
      ParseNatToString(j);
    }
  }
}
