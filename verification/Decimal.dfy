/** Decimal text, as the `%d` verb of Go's fmt and JavaScript's BigInt write and read it. */
module Decimal {

  predicate IsDigit(c: char) { '0' <= c <= '9' }

  predicate Digits(s: string) { forall i | 0 <= i < |s| :: IsDigit(s[i]) }

  /** What String(BigInt) writes: no sign, no leading zero except "0" itself. */
  predicate Canonical(s: string) {
    Digits(s) && 0 < |s| && (1 < |s| ==> s[0] != '0')
  }

  function Digit(d: nat): char
    requires d < 10
  {
    ('0' as int + d) as char
  }

  function Format(n: nat): (s: string)
    ensures Canonical(s)
    ensures s[0] == '0' ==> n == 0
  {
    if n < 10 then [Digit(n)] else Format(n / 10) + [Digit(n % 10)]
  }

  lemma DigitText(d: nat)
    requires d < 10
    ensures Format(d) == ["0123456789"[d]]
  {
  }

  function FormatInt(n: int): (s: string)
    ensures ':' !in s && 0 < |s|
    ensures s[0] == '-' <==> n < 0
  {
    if n < 0 then "-" + Format(-n) else Format(n)
  }

  function Value(s: string): nat
    requires Digits(s)
  {
    if s == [] then 0
    else Value(s[..|s| - 1]) * 10 + (s[|s| - 1] as int - '0' as int)
  }

  lemma {:induction false} ValueOfFormat(n: nat)
    ensures Value(Format(n)) == n
  {
    var s := Format(n);
    if n < 10 {
      assert s[..|s| - 1] == [];
    } else {
      ValueOfFormat(n / 10);
      assert s[..|s| - 1] == Format(n / 10);
    }
  }

  lemma {:induction false} FormatOfValue(s: string)
    requires Canonical(s)
    ensures Format(Value(s)) == s
  {
    var front := s[..|s| - 1];
    if front == [] {
      assert s == [s[0]];
      assert Value(front) == 0;
    } else {
      FormatOfValue(front);
      PositiveValue(front);
      assert s == front + [s[|s| - 1]];
    }
  }

  lemma {:induction false} PositiveValue(s: string)
    requires Canonical(s) && s[0] != '0'
    ensures 0 < Value(s)
  {
    if |s| == 1 {
      assert s[..0] == [];
    } else {
      PositiveValue(s[..|s| - 1]);
    }
  }

  lemma FormatIntInjective(i: int, j: int)
    requires FormatInt(i) == FormatInt(j)
    ensures i == j
  {
    if i < 0 {
      assert Format(-i) == FormatInt(i)[1..] == FormatInt(j)[1..] == Format(-j);
      ValueOfFormat(-i);
      ValueOfFormat(-j);
    } else {
      ValueOfFormat(i);
      ValueOfFormat(j);
    }
  }

  /** In "name:number" the last colon is the separator. */
  lemma LastColon(a: string, i: int, k: int)
    requires |a| < k < |a + ":" + FormatInt(i)|
    ensures (a + ":" + FormatInt(i))[k] != ':'
  {
    assert (a + ":" + FormatInt(i))[k] == FormatInt(i)[k - |a| - 1];
  }

  /** "name:number" texts name one pair only, even when the names contain colons. */
  lemma TaggedInjective(a: string, i: int, b: string, j: int)
    requires a + ":" + FormatInt(i) == b + ":" + FormatInt(j)
    ensures a == b && i == j
  {
    var s, t := a + ":" + FormatInt(i), b + ":" + FormatInt(j);
    assert s[|a|] == ':' && t[|b|] == ':';
    if |a| < |b| { LastColon(a, i, |b|); }
    if |b| < |a| { LastColon(b, j, |a|); }
    assert a == s[..|a|] && b == t[..|b|];
    assert FormatInt(i) == s[|a| + 1..] && FormatInt(j) == t[|b| + 1..];
    FormatIntInjective(i, j);
  }
}
