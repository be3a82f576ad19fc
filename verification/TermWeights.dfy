/** ai/rag.py: how the weights of terms, and so the scores, depend on how often a term occurs and how rare it is. */
module TermWeights {
  import opened Retrieval

  /** The weight of a term in a vector; an absent term weighs nothing. */
  function Weight(v: Vector, t: Term): real {
    if t in v then v[t] else 0.0
  }

  lemma {:induction false} CountAdds(front: seq<Term>, back: seq<Term>, t: Term)
    ensures Count(front + back, t) == Count(front, t) + Count(back, t)
    decreases |back|
  {
    if back == [] {
      assert front + back == front;
    } else {
      assert (front + back)[..|front + back| - 1] == front + back[..|back| - 1];
      CountAdds(front, back[..|back| - 1], t);
    }
  }

  lemma {:induction false} CountZero(tokens: seq<Term>, t: Term)
    ensures Count(tokens, t) == 0 <==> t !in tokens
    decreases |tokens|
  {
    if tokens != [] {
      var last := |tokens| - 1;
      CountZero(tokens[..last], t);
      assert tokens == tokens[..last] + [tokens[last]];
    }
  }

  lemma TimesNone(weight: real)
    ensures Times(0, weight) == 0.0
  {
  }

  lemma TimesOneMore(n: nat, weight: real)
    ensures Times(n + 1, weight) == Times(n, weight) + weight
  {
  }

  lemma WeightIsProduct(log: real -> real, docs: seq<seq<Term>>, tokens: seq<Term>, t: Term, idf: real)
    requires idf == Idf(log, docs, t)
    ensures Weight(Vectorize(log, docs, tokens), t) == Times(Count(tokens, t), idf)
  {
    CountZero(tokens, t);
    if t !in tokens {
      TimesNone(idf);
    }
  }

  /** One more occurrence of a term, wherever it stands, adds its idf to its weight, from nothing when it was absent,
      and leaves the weight of every other term alone. */
  lemma OneMoreOccurrence(log: real -> real, docs: seq<seq<Term>>, front: seq<Term>, t: Term, back: seq<Term>, u: Term)
    ensures Weight(Vectorize(log, docs, front + [t] + back), u)
      == Weight(Vectorize(log, docs, front + back), u) + if u == t then Idf(log, docs, t) else 0.0
  {
    var idf := Idf(log, docs, u);
    OneMoreCounted(front, t, back, u);
    WeightIsProduct(log, docs, front + [t] + back, u, idf);
    WeightIsProduct(log, docs, front + back, u, idf);
    TimesOneMore(Count(front + back, u), idf);
  }

  lemma OneMoreCounted(front: seq<Term>, t: Term, back: seq<Term>, u: Term)
    ensures Count(front + [t] + back, u) == Count(front + back, u) + if u == t then 1 else 0
  {
    CountAdds(front + [t], back, u);
    CountAdds(front, [t], u);
    CountAdds(front, back, u);
    assert [t][..0] == [];
  }

  /** A term in every document weighs 1 per occurrence, when the logarithm of 1 is 0. */
  lemma CommonTermWeighsOne(log: real -> real, docs: seq<seq<Term>>, t: Term)
    requires log(1.0) == 0.0 && docs != [] && DocFreq(docs, t) == |docs|
    ensures Idf(log, docs, t) == 1.0
  {
    OwnQuotient((|docs| + 1) as real);
  }

  /** For a rising logarithm, a term in strictly fewer documents weighs strictly more. */
  lemma StrictlyRarerWeighsMore(log: real -> real, docs: seq<seq<Term>>, rare: Term, common: Term)
    requires forall x, y | 0.0 < x < y :: log(x) < log(y)
    requires DocFreq(docs, rare) < DocFreq(docs, common)
    ensures Idf(log, docs, rare) > Idf(log, docs, common)
  {
    var n := if |docs| < 1 then 1 else |docs|;
    StrictlySmallerDivisor((n + 1) as real, (DocFreq(docs, rare) + 1) as real, (DocFreq(docs, common) + 1) as real);
  }

  lemma StrictlySmallerDivisor(x: real, r: real, c: real)
    requires x > 0.0 && 0.0 < r < c
    ensures 0.0 < x / c < x / r
  {
    SmallerDivisor(x, r, c);
    QuotientTimes(x, c);
    QuotientTimes(x, r);
    if x / c == x / r {
      var q := x / r;
      PositiveProduct(q, c - r, q * c - q * r);
    }
  }

  /** The two chunks have equally many of every other term. */
  ghost predicate SameOtherwise(a: seq<Term>, b: seq<Term>, t: Term) {
    forall u | u != t :: Count(a, u) == Count(b, u)
  }

  /** The squares of all weights but that of `t`. */
  ghost function RestOf(v: Vector, t: Term): real {
    SumProducts(v, v, v.Keys - {t})
  }

  function Square(x: real): real {
    x * x
  }

  lemma SquarePositive(x: real)
    ensures Square(x) >= 0.0 && (x > 0.0 ==> Square(x) > 0.0)
  {
    SquareNonNegative(x);
    if x > 0.0 {
      PositiveProduct(x, x, Square(x));
    }
  }

  /** The norm of a vector with one weight and the squares of the others. */
  predicate NormFits(norm: real, weight: real, rest: real) {
    norm > 0.0 && (weight > 0.0 || rest > 0.0 ==> Square(norm) == Square(weight) + rest)
  }

  function Share(weight: real, norm: real): real
    requires norm > 0.0
  {
    weight / norm
  }

  lemma NormSplits(v: Vector, t: Term)
    ensures SumProducts(v, v, v.Keys) == Square(Weight(v, t)) + RestOf(v, t)
  {
    if t in v {
      SumSplit(v, v, v.Keys, t);
      assert Square(v[t]) == v[t] * v[t];
    } else {
      assert v.Keys - {t} == v.Keys;
    }
  }

  lemma {:induction false} SameSums(v: Vector, w: Vector, terms: set<Term>)
    requires terms <= v.Keys && terms <= w.Keys && forall u | u in terms :: v[u] == w[u]
    ensures SumProducts(v, v, terms) == SumProducts(w, w, terms)
    decreases |terms|
  {
    if terms != {} {
      var u :| u in terms;
      SumSplit(v, v, terms, u);
      SumSplit(w, w, terms, u);
      SameSums(v, w, terms - {u});
    }
  }

  lemma SameRest(log: real -> real, docs: seq<seq<Term>>, a: seq<Term>, b: seq<Term>, t: Term)
    requires SameOtherwise(a, b, t)
    ensures RestOf(Vectorize(log, docs, a), t) == RestOf(Vectorize(log, docs, b), t)
  {
    var v, w := Vectorize(log, docs, a), Vectorize(log, docs, b);
    forall u ensures u in v.Keys - {t} <==> u in w.Keys - {t} {
      CountZero(a, u);
      CountZero(b, u);
    }
    assert v.Keys - {t} == w.Keys - {t};
    SameSums(v, w, v.Keys - {t});
  }

  /** The chunk has a term besides `t`. */
  ghost predicate HasOther(tokens: seq<Term>, t: Term) {
    exists u :: u in tokens && u != t
  }

  lemma RestIsPositiveIff(log: real -> real, docs: seq<seq<Term>>, tokens: seq<Term>, t: Term)
    requires forall x | x >= 1.0 :: log(x) >= 0.0
    ensures RestOf(Vectorize(log, docs, tokens), t) >= 0.0
    ensures RestOf(Vectorize(log, docs, tokens), t) > 0.0 <==> HasOther(tokens, t)
  {
    var v := Vectorize(log, docs, tokens);
    VectorNonNegative(log, docs, tokens);
    SumNonNegative(v, v, v.Keys - {t});
    if HasOther(tokens, t) {
      var u :| u in tokens && u != t;
      assert u in v.Keys - {t};
      forall x | x in v.Keys - {t} ensures v[x] > 0.0 {
        WeightsArePositive(log, docs, tokens, x);
      }
      SumPositive(v, v, v.Keys - {t});
    } else {
      assert v.Keys - {t} == {};
    }
  }

  /** The share of one weight in a norm: it grows with the weight, strictly so when there is something else. */
  lemma ShareGrows(a: real, b: real, rest: real, normA: real, normB: real)
    requires 0.0 <= a < b && 0.0 <= rest && NormFits(normA, a, rest) && NormFits(normB, b, rest)
    ensures Share(a, normA) <= Share(b, normB)
    ensures Share(a, normA) < Share(b, normB) <==> a == 0.0 || rest > 0.0
  {
    CrossShares(a, b, rest, normA, normB);
    SharesCompare(a, normA, b, normB);
  }

  lemma CrossShares(a: real, b: real, rest: real, normA: real, normB: real)
    requires 0.0 <= a < b && 0.0 <= rest && normA > 0.0 && normB > 0.0
    requires a > 0.0 || rest > 0.0 ==> normA * normA == a * a + rest
    requires normB * normB == b * b + rest
    ensures a * normB <= b * normA
    ensures a * normB < b * normA <==> a == 0.0 || rest > 0.0
  {
    if a == 0.0 {
      PositiveProduct(b, normA, b * normA);
    } else {
      StrictSquares(a, b);
      var left, right := a * normB, b * normA;
      SquareOfProduct(a, normB);
      SquareOfProduct(b, normA);
      Expand(a * a, b * b, rest);
      assert left * left == (a * a) * (b * b) + (a * a) * rest;
      assert right * right == (a * a) * (b * b) + (b * b) * rest;
      PositiveProduct(b, normA, right);
      if rest == 0.0 {
        assert left * left == right * right;
        PositiveProduct(a, normB, left);
        RootOrder(left, right);
        RootOrder(right, left);
      } else {
        PositiveProduct(b * b - a * a, rest, (b * b) * rest - (a * a) * rest);
        RootOrder(left, right);
      }
    }
  }

  lemma SquareOfProduct(x: real, y: real)
    ensures (x * y) * (x * y) == (x * x) * (y * y)
  {
  }

  lemma Expand(p: real, q: real, rest: real)
    ensures p * (q + rest) == p * q + p * rest
    ensures q * (p + rest) == p * q + q * rest
  {
  }

  lemma SharesCompare(a: real, normA: real, b: real, normB: real)
    requires normA > 0.0 && normB > 0.0
    ensures Share(a, normA) <= Share(b, normB) <==> a * normB <= b * normA
    ensures Share(a, normA) < Share(b, normB) <==> a * normB < b * normA
  {
    var x, y := a / normA, b / normB;
    QuotientTimes(a, normA);
    QuotientTimes(b, normB);
    var both := normA * normB;
    PositiveProduct(normA, normB, both);
    assert a * normB == x * both;
    assert b * normA == y * both;
    if x < y {
      PositiveProduct(y - x, both, y * both - x * both);
    } else if y < x {
      PositiveProduct(x - y, both, x * both - y * both);
    }
  }

  /** The query asks for `t` and nothing else, once or more often. */
  predicate AsksOnlyFor(query: seq<Term>, t: Term) {
    query != [] && forall k | 0 <= k < |query| :: query[k] == t
  }

  lemma RootOfSquare(root: real, x: real)
    requires root >= 0.0 && x >= 0.0 && root * root == Square(x)
    ensures root == x
  {
    RootOrder(root, x);
    RootOrder(x, root);
  }

  lemma QueryNorm(log: real -> real, sqrt: real -> real, docs: seq<seq<Term>>, query: seq<Term>, t: Term)
    requires (forall x | x >= 1.0 :: log(x) >= 0.0) && IsSqrt(sqrt) && AsksOnlyFor(query, t)
    ensures var q := Vectorize(log, docs, query);
      q.Keys == {t} && q[t] > 0.0 && NormOf(sqrt, q) == q[t]
  {
    var q := Vectorize(log, docs, query);
    assert query[0] == t;
    assert q.Keys == {t};
    WeightsArePositive(log, docs, query, t);
    VectorNonNegative(log, docs, query);
    NormOfIsNorm(sqrt, q);
    NormSplits(q, t);
    assert q.Keys - {t} == {};
    SquarePositive(q[t]);
    RootOfSquare(NormOf(sqrt, q), q[t]);
  }

  lemma CommonFactor(x: real, a: real, norm: real)
    requires x > 0.0 && norm > 0.0
    ensures Product(x, norm) == x * norm
    ensures (x * a) / Product(x, norm) == a / norm
  {
    var y := a / norm;
    QuotientTimes(a, norm);
    var both := x * norm;
    PositiveProduct(x, norm, both);
    QuotientTimes(x * a, both);
    var z := (x * a) / both;
    assert y * both == x * a;
    assert z * both == x * a;
    CancelFactor(y, z, both);
    CancelFactor(z, y, both);
  }

  /** For a query of one term the score of a chunk is the share of that term's weight in the norm of the chunk. */
  lemma ScoreIsShare(log: real -> real, sqrt: real -> real, docs: seq<seq<Term>>, query: seq<Term>, t: Term, i: nat)
    requires (forall x | x >= 1.0 :: log(x) >= 0.0) && IsSqrt(sqrt) && AsksOnlyFor(query, t) && i < |docs|
    ensures var d := Vectorize(log, docs, docs[i]);
      NormOf(sqrt, d) > 0.0 && Score(log, sqrt, docs, query, i) == Share(Weight(d, t), NormOf(sqrt, d))
  {
    var q, d := Vectorize(log, docs, query), Vectorize(log, docs, docs[i]);
    QueryNorm(log, sqrt, docs, query, t);
    VectorNonNegative(log, docs, docs[i]);
    NormOfIsNorm(sqrt, d);
    OneTermCosine(q, d, t, NormOf(sqrt, d));
  }

  lemma OneTermCosine(q: Vector, d: Vector, t: Term, norm: real)
    requires q.Keys == {t} && q[t] > 0.0 && norm > 0.0
    ensures Cosine(q, d, q[t], norm) == Share(Weight(d, t), norm)
  {
    if t in d {
      assert q.Keys * d.Keys == {t};
      SumSplit(q, d, {t}, t);
      assert {t} - {t} == {};
      CommonFactor(q[t], d[t], norm);
    } else {
      assert q.Keys * d.Keys == {};
      NothingShared(norm);
    }
  }

  lemma NothingShared(norm: real)
    requires norm > 0.0
    ensures 0.0 / norm == 0.0
  {
    QuotientTimes(0.0, norm);
  }

  lemma MoreTimesMore(m: nat, n: nat, weight: real)
    requires m < n && weight >= 1.0
    ensures 0.0 <= Times(m, weight) < Times(n, weight)
    ensures Times(m, weight) == 0.0 <==> m == 0
  {
    var gap, low := (n - m) as real * weight, (m as real) * weight;
    PositiveProduct((n - m) as real, weight, gap);
    if m > 0 {
      PositiveProduct(m as real, weight, low);
    }
  }

  lemma ChunkNorm(sqrt: real -> real, d: Vector, t: Term)
    requires IsSqrt(sqrt) && NonNegative(d)
    ensures NormFits(NormOf(sqrt, d), Weight(d, t), RestOf(d, t))
  {
    NormOfIsNorm(sqrt, d);
    NormSplits(d, t);
    SquarePositive(Weight(d, t));
    SumNonNegative(d, d, d.Keys - {t});
  }

  /** With a query of one term, of two chunks with equally many of every other term, the one with more occurrences of
      the term scores at least as high, and strictly higher exactly unless both consist of that term alone. */
  lemma MoreOccurrencesScoreHigher(
      log: real -> real, sqrt: real -> real, docs: seq<seq<Term>>, query: seq<Term>, t: Term, i: nat, j: nat)
    requires (forall x | x >= 1.0 :: log(x) >= 0.0) && IsSqrt(sqrt) && AsksOnlyFor(query, t)
    requires i < |docs| && j < |docs| && SameOtherwise(docs[i], docs[j], t) && Count(docs[i], t) < Count(docs[j], t)
    ensures var low, high := Score(log, sqrt, docs, query, i), Score(log, sqrt, docs, query, j);
      low <= high && (low < high <==> t !in docs[i] || HasOther(docs[i], t))
  {
    var v, w := Vectorize(log, docs, docs[i]), Vectorize(log, docs, docs[j]);
    var a, b, rest := Weight(v, t), Weight(w, t), RestOf(v, t);
    SameRest(log, docs, docs[i], docs[j], t);
    RestIsPositiveIff(log, docs, docs[i], t);
    WeightsOf(log, docs, docs[i], docs[j], t);
    VectorNonNegative(log, docs, docs[i]);
    VectorNonNegative(log, docs, docs[j]);
    ChunkNorm(sqrt, v, t);
    ChunkNorm(sqrt, w, t);
    ShareGrows(a, b, rest, NormOf(sqrt, v), NormOf(sqrt, w));
    ScoreIsShare(log, sqrt, docs, query, t, i);
    ScoreIsShare(log, sqrt, docs, query, t, j);
  }

  lemma WeightsOf(log: real -> real, docs: seq<seq<Term>>, few: seq<Term>, more: seq<Term>, t: Term)
    requires forall x | x >= 1.0 :: log(x) >= 0.0
    requires Count(few, t) < Count(more, t)
    ensures var a, b := Weight(Vectorize(log, docs, few), t), Weight(Vectorize(log, docs, more), t);
      0.0 <= a < b && (a == 0.0 <==> t !in few)
  {
    var idf := Idf(log, docs, t);
    IdfAtLeastOne(log, docs, t);
    WeightIsProduct(log, docs, few, t, idf);
    WeightIsProduct(log, docs, more, t, idf);
    MoreTimesMore(Count(few, t), Count(more, t), idf);
    CountZero(few, t);
  }
}
