/**
 Options and roles, and the facts about delimited strings, decimal numerals and division that several components share.
 */
module Common {
  datatype Option<+T> = None | Some(value: T)

  datatype Role = OWNER | ADMIN | MEMBER | VIEWER

  /** A separator cannot occur inside the part of the other string that is free of it. */
  lemma FirstPartNotLonger(a: string, x: string, b: string, y: string, c: char)
    requires c !in b
    requires a + [c] + x == b + [c] + y
    ensures |b| <= |a|
  {
    assert (a + [c] + x)[|a|] == c;
    assert forall i :: 0 <= i < |b| ==> (b + [c] + y)[i] == b[i];
  }

  lemma LastPartNotLonger(a: string, x: string, b: string, y: string, c: char)
    requires c !in x
    requires a + [c] + x == b + [c] + y
    ensures |x| <= |y|
  {
    assert (b + [c] + y)[|b|] == c;
    assert forall i :: 0 <= i < |x| ==> (a + [c] + x)[|a| + 1 + i] == x[i];
    assert |a| + |x| == |b| + |y|;
  }

  lemma PartsOfEqualLength(a: string, x: string, b: string, y: string, c: char)
    requires |a| == |b|
    requires a + [c] + x == b + [c] + y
    ensures a == b && x == y
  {
    assert a == (a + [c] + x)[..|a|] && b == (b + [c] + y)[..|b|];
    assert x == (a + [c] + x)[|a| + 1..] && y == (b + [c] + y)[|b| + 1..];
  }

  /** Two strings cut at the first occurrence of a separator have equal parts. */
  lemma SplitAtFirst(a: string, x: string, b: string, y: string, c: char)
    requires c !in a && c !in b
    requires a + [c] + x == b + [c] + y
    ensures a == b && x == y
  {
    FirstPartNotLonger(a, x, b, y, c);
    FirstPartNotLonger(b, y, a, x, c);
    PartsOfEqualLength(a, x, b, y, c);
  }

  /** Two strings cut at the last occurrence of a separator have equal parts. */
  lemma SplitAtLast(a: string, x: string, b: string, y: string, c: char)
    requires c !in x && c !in y
    requires a + [c] + x == b + [c] + y
    ensures a == b && x == y
  {
    LastPartNotLonger(a, x, b, y, c);
    LastPartNotLonger(b, y, a, x, c);
    assert |a + [c] + x| == |b + [c] + y|;
    PartsOfEqualLength(a, x, b, y, c);
  }

  function Digit(d: nat): (c: char)
    requires d < 10
    ensures '0' <= c <= '9'
  {
    '0' + d as char
  }

  /** The decimal numeral of a number, as template literals and toString print it. */
  function Decimal(n: nat): (s: string)
    ensures s != "" && forall i :: 0 <= i < |s| ==> '0' <= s[i] <= '9'
  {
    if n < 10 then [Digit(n)] else Decimal(n / 10) + [Digit(n % 10)]
  }

  function ParseDecimal(s: string): nat
    requires forall i :: 0 <= i < |s| ==> '0' <= s[i] <= '9'
  {
    if s == "" then 0 else 10 * ParseDecimal(s[..|s| - 1]) + (s[|s| - 1] - '0') as nat
  }

  lemma {:induction false} ParseOfDecimal(n: nat)
    ensures ParseDecimal(Decimal(n)) == n
  {
    var s := Decimal(n);
    if n < 10 {
      assert s[..0] == "";
    } else {
      ParseOfDecimal(n / 10);
      assert s[..|s| - 1] == Decimal(n / 10);
    }
  }

  /** Different numbers have different numerals. */
  lemma DecimalInjective(m: nat, n: nat)
    requires Decimal(m) == Decimal(n)
    ensures m == n
  {
    ParseOfDecimal(m);
    ParseOfDecimal(n);
  }

  function Zeroes(n: nat): (s: string)
    ensures |s| == n && forall i :: 0 <= i < n ==> s[i] == '0'
  {
    seq(n, _ => '0')
  }

  lemma ProductMonotone(a: int, b: int, q: nat)
    ensures a <= b ==> a * q <= b * q
  {
  }

  /** Division with remainder is unique. */
  lemma Quotient(n: nat, q: nat, d: nat, r: nat)
    requires q > 0 && n == d * q + r && r < q
    ensures n / q == d && n % q == r
  {
    var e := n / q;
    assert n == e * q + n % q;
    ProductMonotone(e + 1, d, q);
    ProductMonotone(d + 1, e, q);
  }

  function CeilDiv(n: nat, b: nat): nat
    requires b > 0
  {
    (n + b - 1) / b
  }
}
