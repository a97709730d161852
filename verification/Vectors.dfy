/** Cosine similarity over the reals; the square root is a parameter. */
module Vectors {
  function Dot(a: seq<real>, b: seq<real>): real
    requires |a| == |b|
  {
    if a == [] then 0.0 else Dot(a[..|a| - 1], b[..|b| - 1]) + a[|a| - 1] * b[|b| - 1]
  }

  /** The dot product of vectors put together, down to those of one element, whose product it is. */
  lemma {:induction false} DotOfParts(a: seq<real>, b: seq<real>, c: seq<real>, d: seq<real>)
    requires |a| == |b| && |c| == |d|
    ensures Dot(a + c, b + d) == Dot(a, b) + Dot(c, d)
    ensures |a| == 1 ==> Dot(a, b) == a[0] * b[0]
  {
    if |a| == 1 {
      assert a[..0] == [] && b[..0] == [];
    }
    if c == [] {
      assert a + c == a && b + d == b;
    } else {
      var n := |c| - 1;
      DotOfParts(a, b, c[..n], d[..n]);
      assert (a + c)[..|a + c| - 1] == a + c[..n] && (b + d)[..|b + d| - 1] == b + d[..n];
    }
  }

  ghost predicate IsSquareRoot(sqrt: real -> real) {
    forall x :: x >= 0.0 ==> sqrt(x) >= 0.0 && sqrt(x) * sqrt(x) == x
  }

  lemma SquareIsNonNegative(x: real)
    ensures x * x >= 0.0
  {
  }

  lemma SquareOrder(x: real, y: real)
    requires y >= 0.0
    ensures x > y ==> x * x > y * y
  {
    if x > y {
      ProductIsPositive(x - y, x + y);
      assert (x - y) * (x + y) == x * x - y * y;
    }
  }

  lemma {:induction false} NormIsNonNegative(a: seq<real>)
    ensures Dot(a, a) >= 0.0
  {
    if a != [] {
      NormIsNonNegative(a[..|a| - 1]);
      SquareIsNonNegative(a[|a| - 1]);
    }
  }

  /** p, q >= 0 and d^2 <= p q make the quadratic form p y^2 - 2 d x y + q x^2 non-negative. */
  lemma FormIsNonNegative(p: real, q: real, d: real, x: real, y: real)
    requires p >= 0.0 && q >= 0.0 && d * d <= p * q
    ensures p * (y * y) - 2.0 * (d * (x * y)) + q * (x * x) >= 0.0
  {
    var form := p * (y * y) - 2.0 * (d * (x * y)) + q * (x * x);
    if p == 0.0 {
      SquareOrder(d, 0.0);
      SquareOrder(-d, 0.0);
      assert d == 0.0;
      SquareIsNonNegative(x);
      ProductIsNonNegative(q, x * x);
    } else {
      var s := p * y - d * x;
      calc {
        p * form;
        (p * y) * (p * y) - 2.0 * ((p * y) * (d * x)) + (p * q) * (x * x);
        { Binomial(p * y, d * x); }
        s * s - (d * x) * (d * x) + (p * q) * (x * x);
        s * s + (p * q - d * d) * (x * x);
      }
      SquareIsNonNegative(s);
      SquareIsNonNegative(x);
      ProductIsNonNegative(p * q - d * d, x * x);
      PositiveFactor(p, form);
    }
  }

  lemma Binomial(u: real, v: real)
    ensures (u - v) * (u - v) == u * u - 2.0 * (u * v) + v * v
  {
  }

  lemma ProductIsNonNegative(u: real, v: real)
    requires u >= 0.0 && v >= 0.0
    ensures u * v >= 0.0
  {
  }

  lemma PositiveFactor(p: real, f: real)
    requires p > 0.0 && p * f >= 0.0
    ensures f >= 0.0
  {
  }

  /** One more coordinate on both sides keeps the inequality. */
  lemma CauchySchwarzStep(p: real, q: real, d: real, x: real, y: real)
    requires p >= 0.0 && q >= 0.0 && d * d <= p * q
    ensures (d + x * y) * (d + x * y) <= (p + x * x) * (q + y * y)
  {
    FormIsNonNegative(p, q, d, x, y);
    assert (p + x * x) * (q + y * y) == p * q + p * (y * y) + q * (x * x) + (x * x) * (y * y);
    assert (d + x * y) * (d + x * y) == d * d + 2.0 * (d * (x * y)) + (x * y) * (x * y);
    assert (x * y) * (x * y) == (x * x) * (y * y);
  }

  /** The accumulated values satisfy dotProduct^2 <= normA * normB. */
  lemma {:induction false} CauchySchwarz(a: seq<real>, b: seq<real>)
    requires |a| == |b|
    ensures Dot(a, b) * Dot(a, b) <= Dot(a, a) * Dot(b, b)
  {
    if a != [] {
      var a', b' := a[..|a| - 1], b[..|b| - 1];
      CauchySchwarz(a', b');
      NormIsNonNegative(a');
      NormIsNonNegative(b');
      CauchySchwarzStep(Dot(a', a'), Dot(b', b'), Dot(a', b'), a[|a| - 1], b[|b| - 1]);
    }
  }

  /** Before the clamp the quotient already lies in [-1, 1]. */
  lemma QuotientInRange(d: real, u: real, v: real)
    requires u > 0.0 && v > 0.0 && d * d <= (u * u) * (v * v)
    ensures -1.0 <= d / (u * v) <= 1.0
  {
    var w := u * v;
    assert w > 0.0 && w * w == (u * u) * (v * v);
    SquareOrder(d, w);
    SquareOrder(-d, w);
    QuotientBound(d, w);
  }

  lemma QuotientBound(d: real, w: real)
    requires w > 0.0 && -w <= d <= w
    ensures -1.0 <= d / w <= 1.0
  {
    assert (d / w) * w == d;
  }

  lemma CosineInRange(d: real, p: real, q: real, sqrt: real -> real)
    requires IsSquareRoot(sqrt) && p > 0.0 && q > 0.0 && d * d <= p * q
    ensures sqrt(p) * sqrt(q) > 0.0 && -1.0 <= d / (sqrt(p) * sqrt(q)) <= 1.0
  {
    var u, v := sqrt(p), sqrt(q);
    RootsArePositive(sqrt, p);
    RootsArePositive(sqrt, q);
    ProductIsPositive(u, v);
    QuotientInRange(d, u, v);
  }

  lemma ProductIsPositive(u: real, v: real)
    requires u > 0.0 && v > 0.0
    ensures u * v > 0.0
  {
  }

  ghost predicate BoundedBy(d: real, p: real, q: real) {
    d * d <= p * q
  }

  lemma NormsBoundDot(a: seq<real>, b: seq<real>)
    requires |a| == |b|
    ensures Dot(a, a) >= 0.0 && Dot(b, b) >= 0.0 && BoundedBy(Dot(a, b), Dot(a, a), Dot(b, b))
  {
    NormIsNonNegative(a);
    NormIsNonNegative(b);
    CauchySchwarz(a, b);
  }

  ghost predicate IsCosine(c: real, d: real, u: real, v: real) {
    u * v > 0.0 && c == d / (u * v)
  }

  /** The clamp changes nothing: the result is the quotient itself. */
  method CosineSimilarity(a: seq<real>, b: seq<real>, sqrt: real -> real) returns (similarity: real)
    requires IsSquareRoot(sqrt)
    ensures |a| == 0 || |b| == 0 || |a| != |b| ==> similarity == 0.0
    ensures |a| == |b| && (Dot(a, a) == 0.0 || Dot(b, b) == 0.0) ==> similarity == 0.0
    ensures |a| == |b| && Dot(a, a) != 0.0 && Dot(b, b) != 0.0 ==>
            IsCosine(similarity, Dot(a, b), sqrt(Dot(a, a)), sqrt(Dot(b, b)))
    ensures -1.0 <= similarity <= 1.0
  {
    if |a| == 0 || |b| == 0 || |a| != |b| {
      return 0.0;
    }
    var dotProduct, normA, normB := 0.0, 0.0, 0.0;
    for i := 0 to |a|
      invariant dotProduct == Dot(a[..i], b[..i]) && normA == Dot(a[..i], a[..i]) && normB == Dot(b[..i], b[..i])
    {
      assert a[..i + 1][..i] == a[..i] && b[..i + 1][..i] == b[..i];
      dotProduct := dotProduct + a[i] * b[i];
      normA := normA + a[i] * a[i];
      normB := normB + b[i] * b[i];
    }
    assert a[..|a|] == a && b[..|b|] == b;
    if normA == 0.0 || normB == 0.0 {
      return 0.0;
    }
    NormsBoundDot(a, b);
    similarity := ClampedQuotient(dotProduct, normA, normB, sqrt);
  }

  method ClampedQuotient(dotProduct: real, normA: real, normB: real, sqrt: real -> real) returns (similarity: real)
    requires IsSquareRoot(sqrt) && normA > 0.0 && normB > 0.0 && BoundedBy(dotProduct, normA, normB)
    ensures IsCosine(similarity, dotProduct, sqrt(normA), sqrt(normB)) && -1.0 <= similarity <= 1.0
  {
    CosineInRange(dotProduct, normA, normB, sqrt);
    similarity := dotProduct / (sqrt(normA) * sqrt(normB));
    var atMostOne := if similarity > 1.0 then 1.0 else similarity;
    similarity := if atMostOne < -1.0 then -1.0 else atMostOne;
  }

  lemma RootsArePositive(sqrt: real -> real, x: real)
    requires IsSquareRoot(sqrt) && x > 0.0
    ensures sqrt(x) > 0.0 && sqrt(x) * sqrt(x) == x
  {
  }

  method DotProduct(a: seq<real>, b: seq<real>) returns (sum: real)
    ensures sum == if |a| == |b| then Dot(a, b) else 0.0
  {
    if |a| == 0 || |b| == 0 || |a| != |b| {
      return 0.0;
    }
    sum := 0.0;
    for i := 0 to |a|
      invariant sum == Dot(a[..i], b[..i])
    {
      assert a[..i + 1][..i] == a[..i] && b[..i + 1][..i] == b[..i];
      sum := sum + a[i] * b[i];
    }
    assert a[..|a|] == a && b[..|b|] == b;
  }

  ghost function Scaled(k: real, a: seq<real>): (s: seq<real>)
    ensures |s| == |a| && forall i :: 0 <= i < |a| ==> s[i] == k * a[i]
  {
    seq(|a|, i requires 0 <= i < |a| => k * a[i])
  }

  lemma ScaledInit(k: real, a: seq<real>)
    requires a != []
    ensures Scaled(k, a)[..|a| - 1] == Scaled(k, a[..|a| - 1]) && Scaled(k, a)[|a| - 1] == k * a[|a| - 1]
  {
    var s, init := Scaled(k, a), a[..|a| - 1];
    forall i | 0 <= i < |init| ensures s[..|a| - 1][i] == Scaled(k, init)[i] {
      assert s[i] == k * a[i] && init[i] == a[i];
    }
  }

  lemma Distribute(k: real, d: real, x: real, y: real)
    ensures k * (d + x * y) == k * d + (k * x) * y && k * (d + y * x) == k * d + y * (k * x)
  {
  }

  lemma {:induction false} DotScaled(k: real, a: seq<real>, b: seq<real>)
    requires |a| == |b|
    ensures Dot(Scaled(k, a), b) == k * Dot(a, b) && Dot(b, Scaled(k, a)) == k * Dot(b, a)
  {
    if a != [] {
      var a', b' := a[..|a| - 1], b[..|b| - 1];
      DotScaled(k, a', b');
      var x, y := a[|a| - 1], b[|b| - 1];
      ScaledInit(k, a);
      Distribute(k, Dot(a', b'), x, y);
      Distribute(k, Dot(b', a'), x, y);
    }
  }

  /** Parallel vectors meet the bound: the inequality is an equality for a vector and its multiples. */
  lemma ParallelVectorsMeetBound(k: real, a: seq<real>)
    ensures var b := Scaled(k, a); Dot(b, a) * Dot(b, a) == Dot(b, b) * Dot(a, a)
  {
    var b := Scaled(k, a);
    DotScaled(k, a, a);
    DotScaled(k, a, b);
    var n := Dot(a, a);
    assert Dot(b, a) == k * n && Dot(b, b) == k * (k * n);
    assert (k * n) * (k * n) == (k * (k * n)) * n;
  }
}
