/** ai/rag.py: sparse TF-IDF vectors, their cosine over exact reals, and the ranking of chunks. */
module Retrieval {

  type Term = string

  /** How many of the documents contain the term. */
  function DocFreq(docs: seq<seq<Term>>, term: Term): (n: nat)
    ensures n <= |docs|
    decreases |docs|
  {
    if docs == [] then 0 else
      DocFreq(docs[..|docs| - 1], term) + if term in docs[|docs| - 1] then 1 else 0
  }

  function Frequency(counts: map<Term, nat>, term: Term): nat {
    if term in counts then counts[term] else 0
  }

  /** Whether the inner counting loop has passed the term already. */
  function Seen(tokens: seq<Term>, todo: set<Term>, term: Term): nat {
    if term in tokens && term !in todo then 1 else 0
  }

  /** The counting loops of the index constructor: each document counts once per distinct term. */
  method CountDocuments(docs: seq<seq<Term>>) returns (counts: map<Term, nat>)
    ensures forall term :: Frequency(counts, term) == DocFreq(docs, term)
  {
    counts := map[];
    var i := 0;
    while i < |docs|
      invariant i <= |docs|
      invariant forall term :: Frequency(counts, term) == DocFreq(docs[..i], term)
    {
      ghost var before := counts;
      var todo := set t | t in docs[i];
      while todo != {}
        invariant forall t | t in todo :: t in docs[i]
        invariant forall term :: Frequency(counts, term) == Frequency(before, term) + Seen(docs[i], todo, term)
        decreases |todo|
      {
        var t :| t in todo;
        counts := counts[t := Frequency(counts, t) + 1];
        todo := todo - {t};
      }
      assert docs[..i + 1][..i] == docs[..i];
      i := i + 1;
    }
    assert docs[..i] == docs;
  }

  function Count(tokens: seq<Term>, term: Term): nat
    decreases |tokens|
  {
    if tokens == [] then 0 else
      Count(tokens[..|tokens| - 1], term) + if tokens[|tokens| - 1] == term then 1 else 0
  }

  lemma {:induction false} CountPositive(tokens: seq<Term>, term: Term)
    requires term in tokens
    ensures Count(tokens, term) >= 1
    decreases |tokens|
  {
    var last := |tokens| - 1;
    assert tokens == tokens[..last] + [tokens[last]];
    if tokens[last] != term {
      CountPositive(tokens[..last], term);
    }
  }

  /** `_idf`, for a logarithm that is not negative from 1 on. */
  function Idf(log: real -> real, docs: seq<seq<Term>>, term: Term): real {
    var n := if |docs| < 1 then 1 else |docs|;
    log((n + 1) as real / (DocFreq(docs, term) + 1) as real) + 1.0
  }

  lemma IdfAtLeastOne(log: real -> real, docs: seq<seq<Term>>, term: Term)
    requires forall x | x >= 1.0 :: log(x) >= 0.0
    ensures Idf(log, docs, term) >= 1.0
  {
    var n := if |docs| < 1 then 1 else |docs|;
    QuotientAtLeastOne((n + 1) as real, (DocFreq(docs, term) + 1) as real);
  }

  lemma QuotientAtLeastOne(x: real, d: real)
    requires 0.0 < d <= x
    ensures x / d >= 1.0
  {
    QuotientTimes(x, d);
    CancelFactor(1.0, x / d, d);
  }

  lemma QuotientTimes(x: real, d: real)
    requires d > 0.0
    ensures x / d * d == x
  {
  }

  /** A term in fewer documents weighs at least as much. */
  lemma RarerWeighsMore(log: real -> real, docs: seq<seq<Term>>, rare: Term, common: Term)
    requires forall x, y | 0.0 < x <= y :: log(x) <= log(y)
    requires DocFreq(docs, rare) <= DocFreq(docs, common)
    ensures Idf(log, docs, rare) >= Idf(log, docs, common)
  {
    var n := if |docs| < 1 then 1 else |docs|;
    var r, c := (DocFreq(docs, rare) + 1) as real, (DocFreq(docs, common) + 1) as real;
    SmallerDivisor((n + 1) as real, r, c);
  }

  lemma SmallerDivisor(x: real, r: real, c: real)
    requires x > 0.0 && 0.0 < r <= c
    ensures 0.0 < x / c <= x / r
  {
    var p, q := x / c, x / r;
    QuotientTimes(x, c);
    QuotientTimes(x, r);
    if p <= 0.0 {
      FactorSigns(p, c);
    }
    ProductMonotone(p, r, p, c);
    CancelFactor(p, q, r);
  }

  lemma FactorSigns(p: real, c: real)
    requires p <= 0.0 && c > 0.0
    ensures p * c <= 0.0
  {
    assert p * c == 0.0 - (0.0 - p) * c;
  }

  lemma CancelFactor(p: real, q: real, r: real)
    requires r > 0.0 && p * r <= q * r
    ensures p <= q
  {
    if p > q {
      PositiveProduct(p - q, r, p * r - q * r);
    }
  }

  type Vector = map<Term, real>

  function Times(n: nat, weight: real): real {
    (n as real) * weight
  }

  /** `_vectorize`. */
  function Vectorize(log: real -> real, docs: seq<seq<Term>>, tokens: seq<Term>): Vector {
    map t | t in tokens :: Times(Count(tokens, t), Idf(log, docs, t))
  }

  predicate NonNegative(v: Vector) {
    forall t | t in v :: v[t] >= 0.0
  }

  /** Vectors of the index have a positive weight for each of their terms. */
  lemma WeightsArePositive(log: real -> real, docs: seq<seq<Term>>, tokens: seq<Term>, t: Term)
    requires forall x | x >= 1.0 :: log(x) >= 0.0
    requires t in tokens
    ensures Vectorize(log, docs, tokens)[t] >= 1.0
  {
    CountPositive(tokens, t);
    IdfAtLeastOne(log, docs, t);
    TimesAtLeastOnce(Count(tokens, t), Idf(log, docs, t));
  }

  lemma TimesAtLeastOnce(n: nat, weight: real)
    requires n >= 1 && weight >= 0.0
    ensures Times(n, weight) >= weight
  {
    var c := n as real;
    assert (c - 1.0) * weight >= 0.0;
  }

  /** The sum of the values at a set of keys. */
  ghost function SumAt(values: map<Term, real>, terms: set<Term>): real
    requires terms <= values.Keys
    decreases |terms|
  {
    if terms == {} then 0.0 else
      var t :| t in terms;
      values[t] + SumAt(values, terms - {t})
  }

  /** The order of summation does not matter. */
  lemma {:induction false} SumAtSplit(values: map<Term, real>, terms: set<Term>, t: Term)
    requires terms <= values.Keys && t in terms
    ensures SumAt(values, terms) == values[t] + SumAt(values, terms - {t})
    decreases |terms|
  {
    var picked :| picked in terms && SumAt(values, terms) == values[picked] + SumAt(values, terms - {picked});
    if picked != t {
      SumAtSplit(values, terms - {picked}, t);
      SumAtSplit(values, terms - {t}, picked);
      assert terms - {picked} - {t} == terms - {t} - {picked};
    }
  }

  /** The products of two vectors, term by term. */
  function Products(a: Vector, b: Vector): map<Term, real> {
    map t | t in a && t in b :: a[t] * b[t]
  }

  /** The sum of a[t] * b[t] over a set of common terms. */
  ghost function SumProducts(a: Vector, b: Vector, terms: set<Term>): real
    requires terms <= a.Keys && terms <= b.Keys
  {
    SumAt(Products(a, b), terms)
  }

  lemma SumSplit(a: Vector, b: Vector, terms: set<Term>, t: Term)
    requires terms <= a.Keys && terms <= b.Keys && t in terms
    ensures SumProducts(a, b, terms) == a[t] * b[t] + SumProducts(a, b, terms - {t})
  {
    SumAtSplit(Products(a, b), terms, t);
  }

  lemma {:induction false} SumNonNegative(a: Vector, b: Vector, terms: set<Term>)
    requires terms <= a.Keys && terms <= b.Keys && NonNegative(a) && NonNegative(b)
    ensures SumProducts(a, b, terms) >= 0.0
    decreases |terms|
  {
    if terms != {} {
      var t :| t in terms;
      SumSplit(a, b, terms, t);
      SumNonNegative(a, b, terms - {t});
      assert a[t] * b[t] >= 0.0;
    }
  }

  lemma RootOrder(u: real, v: real)
    requires 0.0 <= v && u * u <= v * v
    ensures u <= v
  {
    if v < u {
      StrictSquares(v, u);
    }
  }

  lemma StrictSquares(v: real, u: real)
    requires 0.0 <= v < u
    ensures v * v < u * u
  {
    assert (u - v) * (u + v) == u * u - v * v;
    PositiveProduct(u - v, u + v, u * u - v * v);
  }

  lemma PositiveProduct(x: real, y: real, product: real)
    requires x > 0.0 && y > 0.0 && product == x * y
    ensures product > 0.0
  {
  }

  lemma SquareNonNegative(x: real)
    ensures x * x >= 0.0
  {
    if x < 0.0 {
      assert x * x == (0.0 - x) * (0.0 - x);
    }
  }

  /** 2 d x y <= p y^2 + q x^2 whenever d^2 <= p q. */
  lemma CrossTerm(d: real, p: real, q: real, x: real, y: real)
    requires 0.0 <= d && 0.0 <= p && 0.0 <= q && 0.0 <= x && 0.0 <= y && d * d <= p * q
    ensures 2.0 * (d * (x * y)) <= p * (y * y) + q * (x * x)
  {
    var u, v, w := p * (y * y), q * (x * x), d * (x * y);
    var z := x * y;
    assert u * v == (p * q) * (z * z);
    assert w * w == (d * d) * (z * z);
    assert (p * q - d * d) * (z * z) >= 0.0;
    assert w * w <= u * v;
    assert (u + v) * (u + v) - 4.0 * (u * v) == (u - v) * (u - v);
    SquareNonNegative(u - v);
    assert (2.0 * w) * (2.0 * w) <= (u + v) * (u + v);
    RootOrder(2.0 * w, u + v);
  }

  lemma OneMoreTerm(d: real, p: real, q: real, x: real, y: real)
    requires 0.0 <= d && 0.0 <= p && 0.0 <= q && 0.0 <= x && 0.0 <= y && d * d <= p * q
    ensures (x * y + d) * (x * y + d) <= (x * x + p) * (y * y + q)
  {
    CrossTerm(d, p, q, x, y);
    assert (x * y + d) * (x * y + d) == (x * y) * (x * y) + 2.0 * (d * (x * y)) + d * d;
    assert (x * x + p) * (y * y + q) == (x * x) * (y * y) + q * (x * x) + p * (y * y) + p * q;
    assert (x * y) * (x * y) == (x * x) * (y * y);
  }

  /** Cauchy-Schwarz over any set of common terms. */
  lemma {:induction false} CauchySchwarz(a: Vector, b: Vector, terms: set<Term>)
    requires terms <= a.Keys && terms <= b.Keys && NonNegative(a) && NonNegative(b)
    ensures SumProducts(a, b, terms) * SumProducts(a, b, terms) <= SumProducts(a, a, terms) * SumProducts(b, b, terms)
    decreases |terms|
  {
    if terms != {} {
      var t :| t in terms;
      var rest := terms - {t};
      CauchySchwarz(a, b, rest);
      SumSplit(a, b, terms, t);
      SumSplit(a, a, terms, t);
      SumSplit(b, b, terms, t);
      SumNonNegative(a, b, rest);
      SumNonNegative(a, a, rest);
      SumNonNegative(b, b, rest);
      OneMoreTerm(SumProducts(a, b, rest), SumProducts(a, a, rest), SumProducts(b, b, rest), a[t], b[t]);
    }
  }

  /** A norm over all terms is no smaller than over some of them. */
  lemma {:induction false} MoreTermsMoreNorm(a: Vector, some: set<Term>, all: set<Term>)
    requires some <= all <= a.Keys && NonNegative(a)
    ensures SumProducts(a, a, some) <= SumProducts(a, a, all)
    decreases |all|
  {
    if some != all {
      assert all == some + (all - some);
      var t :| t in all - some;
      SumSplit(a, a, all, t);
      MoreTermsMoreNorm(a, some, all - {t});
      assert a[t] * a[t] >= 0.0;
    }
  }

  /** `math.sqrt(sum of squares) or 1.0`. */
  ghost predicate IsNorm(a: Vector, norm: real) {
    var squares := SumProducts(a, a, a.Keys);
    if squares == 0.0 then norm == 1.0 else norm >= 0.0 && norm * norm == squares
  }

  /** `_cosine`, given the two norms. */
  ghost function Cosine(a: Vector, b: Vector, normA: real, normB: real): real
    requires normA > 0.0 && normB > 0.0
  {
    var common := a.Keys * b.Keys;
    if common == {} then 0.0 else Dividend(a, b) / Product(normA, normB)
  }

  ghost function Dividend(a: Vector, b: Vector): real {
    SumProducts(a, b, a.Keys * b.Keys)
  }

  function Product(x: real, y: real): (r: real)
    requires x > 0.0 && y > 0.0
    ensures r > 0.0 && r * r == (x * x) * (y * y)
  {
    x * y
  }

  lemma NormPositive(a: Vector, norm: real)
    requires IsNorm(a, norm)
    ensures norm > 0.0
  {
  }

  lemma ProductMonotone(p: real, q: real, p': real, q': real)
    requires 0.0 <= p <= p' && 0.0 <= q <= q'
    ensures p * q <= p' * q'
  {
    assert p * q <= p' * q by {
      assert (p' - p) * q >= 0.0;
    }
    assert p' * q <= p' * q' by {
      assert p' * (q' - q) >= 0.0;
    }
  }

  /** Every score lies in [0, 1]: the dot product runs over common terms only, the norms over all. */
  lemma CosineInUnitInterval(a: Vector, b: Vector, normA: real, normB: real)
    requires NonNegative(a) && NonNegative(b) && IsNorm(a, normA) && IsNorm(b, normB)
    ensures normA > 0.0 && normB > 0.0 && 0.0 <= Cosine(a, b, normA, normB) <= 1.0
  {
    NormPositive(a, normA);
    NormPositive(b, normB);
    var common := a.Keys * b.Keys;
    var dot := Dividend(a, b);
    var bound := Product(normA, normB);
    SumNonNegative(a, b, common);
    if common != {} {
      DotBelowNorms(a, b, normA, normB);
      assert dot / bound <= 1.0 by {
        QuotientAtMostOne(dot, bound);
      }
    }
  }

  /** A chunk scores exactly 1 against itself, and the score does not depend on the order of its arguments. */
  lemma SelfScoreIsOne(a: Vector, norm: real)
    requires IsNorm(a, norm) && SumProducts(a, a, a.Keys) > 0.0
    ensures norm > 0.0 && Cosine(a, a, norm, norm) == 1.0
  {
    NormPositive(a, norm);
    assert a.Keys * a.Keys == a.Keys;
    assert a.Keys != {};
    var squares := SumProducts(a, a, a.Keys);
    assert Dividend(a, a) == squares;
    assert norm * norm == squares;
    assert Product(norm, norm) == squares;
    assert Cosine(a, a, norm, norm) == squares / squares;
    OwnQuotient(squares);
  }

  lemma OwnQuotient(x: real)
    requires x > 0.0
    ensures x / x == 1.0
  {
  }

  lemma {:induction false} SumSymmetric(a: Vector, b: Vector, terms: set<Term>)
    requires terms <= a.Keys && terms <= b.Keys
    ensures SumProducts(a, b, terms) == SumProducts(b, a, terms)
    decreases |terms|
  {
    if terms != {} {
      var t :| t in terms;
      SumSplit(a, b, terms, t);
      SumSplit(b, a, terms, t);
      SumSymmetric(a, b, terms - {t});
    }
  }

  lemma CosineSymmetric(a: Vector, b: Vector, normA: real, normB: real)
    requires normA > 0.0 && normB > 0.0
    ensures Cosine(a, b, normA, normB) == Cosine(b, a, normB, normA)
  {
    assert a.Keys * b.Keys == b.Keys * a.Keys;
    SumSymmetric(a, b, a.Keys * b.Keys);
  }

  lemma QuotientAtMostOne(d: real, bound: real)
    requires 0.0 <= d <= bound && bound > 0.0
    ensures 0.0 <= d / bound <= 1.0
  {
  }

  lemma DotBelowNorms(a: Vector, b: Vector, normA: real, normB: real)
    requires NonNegative(a) && NonNegative(b) && IsNorm(a, normA) && IsNorm(b, normB)
    requires normA > 0.0 && normB > 0.0
    ensures Dividend(a, b) <= Product(normA, normB)
  {
    var common := a.Keys * b.Keys;
    CauchySchwarz(a, b, common);
    MoreTermsMoreNorm(a, common, a.Keys);
    MoreTermsMoreNorm(b, common, b.Keys);
    SumNonNegative(a, a, common);
    SumNonNegative(b, b, common);
    var p, q := SumProducts(a, a, common), SumProducts(b, b, common);
    SquaresBelow(a, normA);
    SquaresBelow(b, normB);
    ProductMonotone(p, q, normA * normA, normB * normB);
    RootOrder(Dividend(a, b), Product(normA, normB));
  }

  lemma SquaresBelow(a: Vector, norm: real)
    requires IsNorm(a, norm)
    ensures SumProducts(a, a, a.Keys) <= norm * norm
  {
  }

  /** Puts `i` behind every index whose score is at least as high: a stable descending insertion. */
  function Insert(scores: seq<real>, order: seq<nat>, i: nat): (r: seq<nat>)
    requires i < |scores| && forall k | 0 <= k < |order| :: order[k] < |scores|
    ensures |r| == |order| + 1
    ensures forall x :: x in r <==> x in order || x == i
    decreases |order|
  {
    if order == [] then [i] else
      var last := order[|order| - 1];
      assert order == order[..|order| - 1] + [last];
      if scores[last] >= scores[i] then order + [i]
      else Insert(scores, order[..|order| - 1], i) + [last]
  }

  /** The stable descending sort of the first `n` scores. */
  function Ranked(scores: seq<real>, n: nat): (r: seq<nat>)
    requires n <= |scores|
    ensures |r| == n && forall x :: x in r <==> 0 <= x < n
    decreases n
  {
    if n == 0 then [] else
      var front := Ranked(scores, n - 1);
      assert forall k | 0 <= k < |front| :: front[k] in front;
      Insert(scores, front, n - 1)
  }

  /** Better score first; on a tie, the earlier chunk first. */
  predicate Outranks(scores: seq<real>, i: nat, j: nat)
    requires i < |scores| && j < |scores|
  {
    scores[i] > scores[j] || (scores[i] == scores[j] && i < j)
  }

  ghost predicate InRankOrder(scores: seq<real>, order: seq<nat>) {
    && (forall k | 0 <= k < |order| :: order[k] < |scores|)
    && (forall k, l | 0 <= k < l < |order| :: Outranks(scores, order[k], order[l]))
  }

  lemma {:induction false} InsertKeepsOrder(scores: seq<real>, order: seq<nat>, i: nat)
    requires i < |scores| && InRankOrder(scores, order)
    requires forall k | 0 <= k < |order| :: order[k] < i
    ensures InRankOrder(scores, Insert(scores, order, i))
    decreases |order|
  {
    if order != [] {
      var front, last := order[..|order| - 1], order[|order| - 1];
      if scores[last] < scores[i] {
        InsertKeepsOrder(scores, front, i);
        var r := Insert(scores, front, i);
        forall k | 0 <= k < |r| ensures r[k] < |scores| && Outranks(scores, r[k], last) {
          assert r[k] in r;
        }
        AppendKeepsOrder(scores, r, last);
      } else {
        AppendKeepsOrder(scores, order, i);
      }
    }
  }

  lemma AppendKeepsOrder(scores: seq<real>, order: seq<nat>, i: nat)
    requires i < |scores| && InRankOrder(scores, order)
    requires forall k | 0 <= k < |order| :: Outranks(scores, order[k], i)
    ensures InRankOrder(scores, order + [i])
  {
  }

  lemma {:induction false} RankedInOrder(scores: seq<real>, n: nat)
    requires n <= |scores|
    ensures InRankOrder(scores, Ranked(scores, n))
    decreases n
  {
    if n > 0 {
      RankedInOrder(scores, n - 1);
      var front := Ranked(scores, n - 1);
      forall k | 0 <= k < |front| ensures front[k] < n - 1 {
        assert front[k] in front;
      }
      InsertKeepsOrder(scores, front, n - 1);
    }
  }

  /** The leading entries with a positive score. */
  function Positive(scores: seq<real>, order: seq<nat>): (r: seq<nat>)
    requires forall k | 0 <= k < |order| :: order[k] < |scores|
    ensures forall x :: x in r <==> x in order && x < |scores| && scores[x] > 0.0
    ensures |r| <= |order|
    decreases |order|
  {
    if order == [] then [] else
      var front := Positive(scores, order[..|order| - 1]);
      var last := order[|order| - 1];
      assert order == order[..|order| - 1] + [last];
      if scores[last] > 0.0 then front + [last] else front
  }

  lemma {:induction false} PositiveKeepsOrder(scores: seq<real>, order: seq<nat>)
    requires InRankOrder(scores, order)
    ensures InRankOrder(scores, Positive(scores, order))
    decreases |order|
  {
    if order != [] {
      var front := order[..|order| - 1];
      PositiveKeepsOrder(scores, front);
      var r := Positive(scores, front);
      forall k | 0 <= k < |r| ensures Outranks(scores, r[k], order[|order| - 1]) {
        assert r[k] in r;
      }
    }
  }

  /** `scored[:top_k]` on ids. */
  function Top(order: seq<nat>, topK: nat): (r: seq<nat>)
    ensures forall x :: x in r ==> x in order
    ensures |r| <= topK
  {
    if topK < |order| then order[..topK] else order
  }

  /** `search` on the chunks' scores: the ids of the hits. */
  function Search(scores: seq<real>, topK: nat): seq<nat> {
    var top := Top(Ranked(scores, |scores|), topK);
    assert forall k | 0 <= k < |top| :: top[k] in top;
    Positive(scores, top)
  }

  /** At most `topK` chunks, all with a positive score, best first with ties in corpus order, and no
      omitted chunk with a positive score ranks above any hit. */
  lemma SearchFindsTheBest(scores: seq<real>, topK: nat)
    ensures var hits := Search(scores, topK);
      && |hits| <= topK && InRankOrder(scores, hits)
      && (forall k | 0 <= k < |hits| :: scores[hits[k]] > 0.0)
      && (forall j | 0 <= j < |scores| && j !in hits && scores[j] > 0.0 ::
           |hits| == topK && forall k | 0 <= k < |hits| :: Outranks(scores, hits[k], j))
  {
    var order := Ranked(scores, |scores|);
    RankedInOrder(scores, |scores|);
    var top := Top(order, topK);
    var hits := Search(scores, topK);
    PositiveKeepsOrder(scores, top);
    forall k | 0 <= k < |hits| ensures scores[hits[k]] > 0.0 {
      assert hits[k] in hits;
    }
    forall j | 0 <= j < |scores| && j !in hits && scores[j] > 0.0
      ensures |hits| == topK && forall k | 0 <= k < |hits| :: Outranks(scores, hits[k], j)
    {
      OmittedRanksBelow(scores, topK, j);
    }
  }

  lemma {:induction false} AllPositiveKept(scores: seq<real>, order: seq<nat>)
    requires forall k | 0 <= k < |order| :: order[k] < |scores| && scores[order[k]] > 0.0
    ensures Positive(scores, order) == order
    decreases |order|
  {
    if order != [] {
      var front := order[..|order| - 1];
      AllPositiveKept(scores, front);
      var last := order[|order| - 1];
      assert scores[last] > 0.0;
      assert Positive(scores, order) == Positive(scores, front) + [last];
      assert order == front + [last];
    }
  }

  lemma OmittedPlace(order: seq<nat>, topK: nat, j: nat) returns (p: nat)
    requires j in order && j !in Top(order, topK)
    ensures topK == |Top(order, topK)| <= p < |order| && order[p] == j
  {
    p :| 0 <= p < |order| && order[p] == j;
    var top := Top(order, topK);
    assert forall k | 0 <= k < |top| :: top[k] == order[k] && top[k] in top;
  }

  lemma OmittedRanksBelow(scores: seq<real>, topK: nat, j: nat)
    requires j < |scores| && scores[j] > 0.0 && j !in Search(scores, topK)
    ensures var hits := Search(scores, topK);
      |hits| == topK && forall k | 0 <= k < |hits| :: hits[k] < |scores| && Outranks(scores, hits[k], j)
  {
    var order := Ranked(scores, |scores|);
    var top := Top(order, topK);
    RankedInOrder(scores, |scores|);
    var p := OmittedPlace(order, topK, j);
    forall k | 0 <= k < |top|
      ensures top[k] < |scores| && Outranks(scores, top[k], j) && scores[top[k]] > 0.0
    {
      assert top[k] == order[k];
      assert Outranks(scores, order[k], order[p]);
    }
    AllPositiveKept(scores, top);
  }

  /** What `math.sqrt` is taken to be. */
  ghost predicate IsSqrt(sqrt: real -> real) {
    forall x | x >= 0.0 :: sqrt(x) >= 0.0 && sqrt(x) * sqrt(x) == x
  }

  /** `math.sqrt(squares) or 1.0`. */
  function RootOrOne(sqrt: real -> real, squares: real): real {
    if sqrt(squares) == 0.0 then 1.0 else sqrt(squares)
  }

  lemma RootOrOneSquared(sqrt: real -> real, squares: real)
    requires IsSqrt(sqrt) && squares >= 0.0
    ensures var norm := RootOrOne(sqrt, squares);
      norm > 0.0 && if squares == 0.0 then norm == 1.0 else norm * norm == squares
  {
    var root := sqrt(squares);
    assert root >= 0.0 && root * root == squares;
    RootIsZeroIff(root, squares);
  }

  lemma RootIsZeroIff(root: real, squares: real)
    requires root >= 0.0 && root * root == squares
    ensures root == 0.0 <==> squares == 0.0
  {
    if root == 0.0 {
      assert squares == 0.0 * 0.0;
    } else {
      PositiveProduct(root, root, squares);
    }
  }

  ghost function NormOf(sqrt: real -> real, a: Vector): real {
    RootOrOne(sqrt, SumProducts(a, a, a.Keys))
  }

  lemma NormOfIsNorm(sqrt: real -> real, a: Vector)
    requires IsSqrt(sqrt) && NonNegative(a)
    ensures IsNorm(a, NormOf(sqrt, a)) && NormOf(sqrt, a) > 0.0
  {
    SumNonNegative(a, a, a.Keys);
    RootOrOneSquared(sqrt, SumProducts(a, a, a.Keys));
  }

  /** The weights are never negative. */
  lemma VectorNonNegative(log: real -> real, docs: seq<seq<Term>>, tokens: seq<Term>)
    requires forall x | x >= 1.0 :: log(x) >= 0.0
    ensures NonNegative(Vectorize(log, docs, tokens))
  {
    forall t | t in tokens ensures Vectorize(log, docs, tokens)[t] >= 1.0 {
      WeightsArePositive(log, docs, tokens, t);
    }
  }

  /** The score that `search` gives chunk `i` for a query. */
  ghost function Score(log: real -> real, sqrt: real -> real, docs: seq<seq<Term>>, query: seq<Term>, i: nat): real
    requires (forall x | x >= 1.0 :: log(x) >= 0.0) && IsSqrt(sqrt) && i < |docs|
  {
    var q, d := Vectorize(log, docs, query), Vectorize(log, docs, docs[i]);
    VectorNonNegative(log, docs, query);
    VectorNonNegative(log, docs, docs[i]);
    NormOfIsNorm(sqrt, q);
    NormOfIsNorm(sqrt, d);
    Cosine(q, d, NormOf(sqrt, q), NormOf(sqrt, d))
  }

  ghost function Scores(log: real -> real, sqrt: real -> real, docs: seq<seq<Term>>, query: seq<Term>): (r: seq<real>)
    requires (forall x | x >= 1.0 :: log(x) >= 0.0) && IsSqrt(sqrt)
    ensures |r| == |docs| && forall i | 0 <= i < |docs| :: r[i] == Score(log, sqrt, docs, query, i)
  {
    seq(|docs|, i requires 0 <= i < |docs| => Score(log, sqrt, docs, query, i))
  }

  predicate ShareTerm(a: seq<Term>, b: seq<Term>) {
    exists t :: t in a && t in b
  }

  lemma SumPositive(a: Vector, b: Vector, terms: set<Term>)
    requires terms <= a.Keys && terms <= b.Keys && terms != {} && NonNegative(a) && NonNegative(b)
    requires forall t | t in terms :: a[t] > 0.0 && b[t] > 0.0
    ensures SumProducts(a, b, terms) > 0.0
  {
    var t :| t in terms;
    SumSplit(a, b, terms, t);
    SumNonNegative(a, b, terms - {t});
    var first := a[t] * b[t];
    PositiveProduct(a[t], b[t], first);
  }

  lemma PositiveQuotient(d: real, bound: real)
    requires d > 0.0 && bound > 0.0
    ensures d / bound > 0.0
  {
    QuotientTimes(d, bound);
    if d / bound <= 0.0 {
      FactorSigns(d / bound, bound);
    }
  }

  /** Every score lies in [0, 1], and is positive exactly when the chunk shares a term with the query. */
  lemma ScoreSigns(log: real -> real, sqrt: real -> real, docs: seq<seq<Term>>, query: seq<Term>, i: nat)
    requires (forall x | x >= 1.0 :: log(x) >= 0.0) && IsSqrt(sqrt) && i < |docs|
    ensures 0.0 <= Score(log, sqrt, docs, query, i) <= 1.0
    ensures Score(log, sqrt, docs, query, i) > 0.0 <==> ShareTerm(query, docs[i])
  {
    var q, d := Vectorize(log, docs, query), Vectorize(log, docs, docs[i]);
    VectorNonNegative(log, docs, query);
    VectorNonNegative(log, docs, docs[i]);
    NormOfIsNorm(sqrt, q);
    NormOfIsNorm(sqrt, d);
    CosineInUnitInterval(q, d, NormOf(sqrt, q), NormOf(sqrt, d));
    var common := q.Keys * d.Keys;
    if common != {} {
      var t :| t in common;
      assert t in query && t in docs[i];
      forall t | t in common ensures q[t] > 0.0 && d[t] > 0.0 {
        WeightsArePositive(log, docs, query, t);
        WeightsArePositive(log, docs, docs[i], t);
      }
      SumPositive(q, d, common);
      PositiveQuotient(Dividend(q, d), Product(NormOf(sqrt, q), NormOf(sqrt, d)));
    } else {
      forall t | t in query ensures t !in docs[i] {
        assert t in q.Keys;
        assert t !in common;
      }
    }
  }

  /** `search`, for a query and the documents themselves: at most `topK` chunks, each sharing a term with the query and
      scoring in (0, 1], best first with ties in corpus order; any other chunk that shares a term ranks below all of
      `topK` hits. */
  lemma QueryFindsTheBest(log: real -> real, sqrt: real -> real, docs: seq<seq<Term>>, query: seq<Term>, topK: nat)
    requires (forall x | x >= 1.0 :: log(x) >= 0.0) && IsSqrt(sqrt)
    ensures var scores := Scores(log, sqrt, docs, query);
      var hits := Search(scores, topK);
      && |hits| <= topK && InRankOrder(scores, hits)
      && (forall k | 0 <= k < |hits| :: 0.0 < scores[hits[k]] <= 1.0 && ShareTerm(query, docs[hits[k]]))
      && (forall j | 0 <= j < |docs| && j !in hits && ShareTerm(query, docs[j]) ::
           |hits| == topK && forall k | 0 <= k < |hits| :: Outranks(scores, hits[k], j))
  {
    var scores := Scores(log, sqrt, docs, query);
    forall i | 0 <= i < |docs| ensures 0.0 <= scores[i] <= 1.0 && (scores[i] > 0.0 <==> ShareTerm(query, docs[i])) {
      ScoreSigns(log, sqrt, docs, query, i);
    }
    SearchFindsTheBest(scores, topK);
  }
}
