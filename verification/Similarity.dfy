/** Jaccard similarity of token sets (content-memory/similarity-scorer.service.ts) and its metric. */
module Similarity {
  type Tokens = set<string>

  /** |A n B| / |A u B|, and 0 when either is empty. */
  function Jaccard(a: Tokens, b: Tokens): real {
    if a == {} || b == {} then 0.0 else |a * b| as real / |a + b| as real
  }

  lemma UnionSize(a: Tokens, b: Tokens)
    ensures |a + b| == |a| + |b| - |a * b|
    ensures b != {} ==> |a + b| > 0
  {
    assert a + b == a + (b - a) && b == (b - a) + (a * b);
    if x :| x in b {
      assert x in a + b;
    }
  }

  method ComputeJaccard(a: Tokens, b: Tokens) returns (score: real)
    ensures score == Jaccard(a, b)
  {
    if |a| == 0 || |b| == 0 {
      return 0.0;
    }
    var intersection := 0;
    var rest := a;
    while rest != {}
      invariant rest <= a && intersection == |(a - rest) * b|
      decreases rest
    {
      var token :| token in rest;
      ghost var done := (a - rest) * b;
      rest := rest - {token};
      if token in b {
        assert (a - rest) * b == done + {token};
        intersection := intersection + 1;
      } else {
        assert (a - rest) * b == done;
      }
    }
    assert (a - rest) * b == a * b;
    UnionSize(a, b);
    score := intersection as real / (|a| + |b| - intersection) as real;
  }

  lemma Smaller(a: Tokens, b: Tokens)
    requires a <= b
    ensures |a| <= |b|
    ensures |a| == |b| ==> a == b
  {
    assert b == a + (b - a);
  }

  lemma FractionBounds(i: nat, u: nat)
    requires i <= u && u > 0
    ensures 0.0 <= i as real / u as real <= 1.0
    ensures i == u <==> i as real / u as real == 1.0
    ensures i == 0 <==> i as real / u as real == 0.0
  {
    var q := i as real / u as real;
    assert q * u as real == i as real;
  }

  /** Symmetric, within [0, 1], 1 exactly for equal non-empty sets and 0 exactly for disjoint ones. */
  lemma JaccardIsASimilarity(a: Tokens, b: Tokens)
    ensures Jaccard(a, b) == Jaccard(b, a)
    ensures 0.0 <= Jaccard(a, b) <= 1.0
    ensures Jaccard(a, b) == 1.0 <==> a == b && a != {}
    ensures Jaccard(a, b) == 0.0 <==> a !! b
  {
    assert a * b == b * a && a + b == b + a;
    if a != {} && b != {} {
      UnionSize(a, b);
      Smaller(a * b, a + b);
      FractionBounds(|a * b|, |a + b|);
      if a * b == a + b {
        assert a == b;
      }
      if a == b {
        assert a * b == a + b;
      }
    }
  }

  // ---------------------------------------------------------------- the triangle inequality

  lemma QuotientAtMost(i: int, u: int, j: int, v: int)
    requires u > 0 && v > 0 && i * v <= j * u
    ensures i as real / u as real <= j as real / v as real
  {
    var p, q := i as real / u as real, j as real / v as real;
    assert p * u as real == i as real && q * v as real == j as real;
    assert (p * u as real) * v as real <= (q * v as real) * u as real;
    var w := u as real * v as real;
    assert w > 0.0;
    assert p * w <= q * w;
    if p > q {
      PositiveProduct(p - q, w);
    }
  }

  lemma PositiveProduct(x: real, y: real)
    requires x > 0.0 && y > 0.0
    ensures x * y > 0.0
  {
  }

  /** Adding the same amount to part and whole does not lower a proportion. */
  lemma PadFraction(i: nat, u: nat, k: nat)
    requires i <= u && u > 0
    ensures i as real / u as real <= (i + k) as real / (u + k) as real
  {
    assert i * (u + k) == i * u + i * k && (i + k) * u == i * u + k * u;
    assert i * k <= u * k by {
      assert (u - i) * k >= 0;
    }
    QuotientAtMost(i, u, i + k, u + k);
  }

  /** Elements counted by both padded intersections lie in all three sets. */
  lemma PaddedCounts(a: Tokens, b: Tokens, c: Tokens)
    ensures var n := |a + b + c|;
      && |a + b| + |c - (a + b)| == n && |b + c| + |a - (b + c)| == n
      && (|a * b| + |c - (a + b)|) + (|b * c| + |a - (b + c)|) <= n + |a * b * c|
  {
    var all := a + b + c;
    assert all == (a + b) + (c - (a + b));
    assert all == (b + c) + (a - (b + c));
    var x := a * b + (c - (a + b));
    var y := b * c + (a - (b + c));
    assert |x| == |a * b| + |c - (a + b)|;
    assert |y| == |b * c| + |a - (b + c)|;
    UnionSize(x, y);
    Smaller(x + y, all);
    Smaller(x * y, a * b * c);
  }

  lemma AddFractions(i: int, j: int, n: int)
    requires n > 0
    ensures i as real / n as real + j as real / n as real == (i + j) as real / n as real
  {
    var p, q, r := i as real / n as real, j as real / n as real, (i + j) as real / n as real;
    assert p * n as real == i as real && q * n as real == j as real && r * n as real == (i + j) as real;
    assert (p + q - r) * n as real == 0.0;
  }

  /** The inequality on the sizes alone: parts ab, bc, ac of wholes, all within n, t common to all three. */
  lemma CountsTriangle(ab: nat, uab: nat, kc: nat, bc: nat, ubc: nat, ka: nat, ac: nat, uac: nat, t: nat, n: nat)
    requires ab <= uab && uab > 0 && bc <= ubc && ubc > 0 && 0 < uac <= n && t <= ac
    requires uab + kc == n && ubc + ka == n && (ab + kc) + (bc + ka) <= n + t
    ensures ab as real / uab as real + bc as real / ubc as real <= 1.0 + ac as real / uac as real
  {
    PadFraction(ab, uab, kc);
    PadFraction(bc, ubc, ka);
    AddFractions(ab + kc, bc + ka, n);
    AddFractions(n, t, n);
    FractionBounds(n, n);
    TopHeavy(t, n, ac, uac);
    SameWhole((ab + kc) + (bc + ka), n + t, n);
  }

  lemma SameWhole(i: int, j: int, n: int)
    requires i <= j && n > 0
    ensures i as real / n as real <= j as real / n as real
  {
    QuotientAtMost(i, n, j, n) by {
      assert (j - i) * n >= 0;
    }
  }

  lemma NonEmptyTriangle(a: Tokens, b: Tokens, c: Tokens)
    requires a != {} && b != {} && c != {}
    ensures Jaccard(a, b) + Jaccard(b, c) <= 1.0 + Jaccard(a, c)
  {
    UnionSize(a, b);
    UnionSize(b, c);
    UnionSize(a, c);
    Smaller(a * b, a + b);
    Smaller(b * c, b + c);
    Smaller(a + c, a + b + c);
    Smaller(a * b * c, a * c);
    PaddedCounts(a, b, c);
    CountsTriangle(|a * b|, |a + b|, |c - (a + b)|, |b * c|, |b + c|, |a - (b + c)|, |a * c|, |a + c|,
                   |a * b * c|, |a + b + c|);
  }

  lemma TopHeavy(t: nat, n: nat, i: nat, u: nat)
    requires t <= i && 0 < u <= n
    ensures t as real / n as real <= i as real / u as real
  {
    assert t * u <= i * n by {
      assert (i - t) * n >= 0 && t * (n - u) >= 0;
      assert i * n - t * u == (i - t) * n + t * (n - u);
    }
    QuotientAtMost(t, n, i, u);
  }

  /** 1 - Jaccard satisfies the triangle inequality on all finite sets, the empty one included. */
  lemma TriangleInequality(a: Tokens, b: Tokens, c: Tokens)
    ensures (1.0 - Jaccard(a, c)) <= (1.0 - Jaccard(a, b)) + (1.0 - Jaccard(b, c))
  {
    JaccardIsASimilarity(a, b);
    JaccardIsASimilarity(b, c);
    JaccardIsASimilarity(a, c);
    if a != {} && b != {} && c != {} {
      NonEmptyTriangle(a, b, c);
    }
  }

  /** Two texts that both echo a third are at least 0.44 alike. */
  lemma EchoesOfOneTextAreAlike(a: Tokens, b: Tokens, c: Tokens)
    requires Jaccard(a, b) >= 0.72 && Jaccard(b, c) >= 0.72
    ensures Jaccard(a, c) >= 0.44
  {
    TriangleInequality(a, b, c);
  }
}
