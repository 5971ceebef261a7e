/** `_hashed_embedding` and `_cosine` of benchmarks/s4/operationalization.py. */
module Cosine {
  import opened Prelude

  const EMBEDDING_DIMENSION := 256

  type Bucket = i: int | 0 <= i < EMBEDDING_DIMENSION

  /** A sparse vector: bucket index to positive count. */
  type Vector = map<Bucket, nat>

  /** `vector.get(index, 0)` */
  function At(v: Vector, i: int): nat {
    if 0 <= i < EMBEDDING_DIMENSION && i in v then v[i] else 0
  }

  // ---------------------------------------------------------------- embedding

  function Embedding(tokens: seq<string>, bucket: string -> Bucket): Vector {
    if tokens == [] then map[] else
    var v := Embedding(Init(tokens), bucket);
    var i := bucket(Last(tokens));
    v[i := At(v, i) + 1]
  }

  /** `_hashed_embedding` of a tokenized text; the SHA-256 bucket of a token is a given function. */
  method HashedEmbedding(tokens: seq<string>, bucket: string -> Bucket) returns (v: Vector)
    ensures v == Embedding(tokens, bucket)
  {
    v := map[];
    for k := 0 to |tokens|
      invariant v == Embedding(tokens[..k], bucket)
    {
      assert Init(tokens[..k + 1]) == tokens[..k];
      var i := bucket(tokens[k]);
      v := v[i := At(v, i) + 1];
    }
    assert tokens[..|tokens|] == tokens;
  }

  /** How many tokens fall into bucket i. */
  function Count(tokens: seq<string>, bucket: string -> Bucket, i: int): nat {
    if tokens == [] then 0 else Count(Init(tokens), bucket, i) + if bucket(Last(tokens)) == i then 1 else 0
  }

  /** An embedding holds exactly the non-empty buckets with their counts. */
  lemma {:induction false} EmbeddingCounts(tokens: seq<string>, bucket: string -> Bucket, i: int)
    ensures At(Embedding(tokens, bucket), i) == Count(tokens, bucket, i)
    ensures 0 <= i < EMBEDDING_DIMENSION ==> (i in Embedding(tokens, bucket) <==> Count(tokens, bucket, i) > 0)
  {
    if tokens != [] {
      EmbeddingCounts(Init(tokens), bucket, i);
    }
  }

  /** Buckets add when texts are concatenated token by token. */
  lemma {:induction false} CountOfConcat(a: seq<string>, b: seq<string>, bucket: string -> Bucket, i: int)
    ensures Count(a + b, bucket, i) == Count(a, bucket, i) + Count(b, bucket, i)
  {
    if b == [] {
      assert a + b == a;
    } else {
      assert Init(a + b) == a + Init(b);
      CountOfConcat(a, Init(b), bucket, i);
    }
  }

  lemma EmbeddingOfConcat(a: seq<string>, b: seq<string>, bucket: string -> Bucket, i: int)
    ensures At(Embedding(a + b, bucket), i) == At(Embedding(a, bucket), i) + At(Embedding(b, bucket), i)
  {
    EmbeddingCounts(a + b, bucket, i);
    EmbeddingCounts(a, bucket, i);
    EmbeddingCounts(b, bucket, i);
    CountOfConcat(a, b, bucket, i);
  }

  /** Sum of the first n buckets. */
  function Mass(v: Vector, n: nat): nat {
    if n == 0 then 0 else Mass(v, n - 1) + At(v, n - 1)
  }

  lemma {:induction false} MassOfIncrement(v: Vector, i: Bucket, n: nat)
    ensures Mass(v[i := At(v, i) + 1], n) == Mass(v, n) + if i < n then 1 else 0
  {
    if n > 0 {
      MassOfIncrement(v, i, n - 1);
    }
  }

  lemma {:induction false} NoMass(n: nat)
    ensures Mass(map[], n) == 0
  {
    if n > 0 {
      NoMass(n - 1);
    }
  }

  /** The buckets of an embedding sum to the number of tokens. */
  lemma {:induction false} MassIsTokenCount(tokens: seq<string>, bucket: string -> Bucket)
    ensures Mass(Embedding(tokens, bucket), EMBEDDING_DIMENSION) == |tokens|
  {
    hide Mass;
    if tokens == [] {
      NoMass(EMBEDDING_DIMENSION);
    } else {
      MassIsTokenCount(Init(tokens), bucket);
      MassOfIncrement(Embedding(Init(tokens), bucket), bucket(Last(tokens)), EMBEDDING_DIMENSION);
    }
  }

  // ---------------------------------------------------------------- inner products

  /** The inner product over the first n buckets: the dense, order-free form. */
  function Dot(l: Vector, r: Vector, n: nat): nat {
    if n == 0 then 0 else Dot(l, r, n - 1) + At(l, n - 1) * At(r, n - 1)
  }

  /** The inner product restricted to some keys. */
  function DotOn(l: Vector, r: Vector, keys: set<Bucket>, n: nat): nat {
    if n == 0 then 0 else
    DotOn(l, r, keys, n - 1) + if n - 1 < EMBEDDING_DIMENSION && n - 1 in keys then At(l, n - 1) * At(r, n - 1) else 0
  }

  lemma {:induction false} DotOnMore(l: Vector, r: Vector, keys: set<Bucket>, key: Bucket, n: nat)
    requires key !in keys
    ensures DotOn(l, r, keys + {key}, n) == DotOn(l, r, keys, n) + if key < n then At(l, key) * At(r, key) else 0
  {
    if n > 0 {
      DotOnMore(l, r, keys, key, n - 1);
    }
  }

  lemma {:induction false} DotOnNone(l: Vector, r: Vector, n: nat)
    ensures DotOn(l, r, {}, n) == 0
  {
    if n > 0 {
      DotOnNone(l, r, n - 1);
    }
  }

  lemma {:induction false} DotOnKeys(l: Vector, r: Vector, n: nat)
    ensures DotOn(l, r, l.Keys, n) == Dot(l, r, n)
  {
    if n > 0 {
      DotOnKeys(l, r, n - 1);
    }
  }

  /** `sum(value * right.get(index, 0) for index, value in left.items())`, in any order of the items. */
  method SparseDot(left: Vector, right: Vector) returns (sum: nat)
    ensures sum == Dot(left, right, EMBEDDING_DIMENSION)
  {
    hide Dot, DotOn;
    sum := 0;
    var rest := left.Keys;
    ghost var done: set<Bucket> := {};
    DotOnNone(left, right, EMBEDDING_DIMENSION);
    while rest != {}
      invariant rest + done == left.Keys && rest !! done
      invariant sum == DotOn(left, right, done, EMBEDDING_DIMENSION)
      decreases rest
    {
      var index :| index in rest;
      DotOnMore(left, right, done, index, EMBEDDING_DIMENSION);
      sum := sum + left[index] * At(right, index);
      rest := rest - {index};
      done := done + {index};
    }
    assert done == left.Keys;
    DotOnKeys(left, right, EMBEDDING_DIMENSION);
  }

  lemma {:induction false} DotSymmetric(l: Vector, r: Vector, n: nat)
    ensures Dot(l, r, n) == Dot(r, l, n)
  {
    if n > 0 {
      DotSymmetric(l, r, n - 1);
    }
  }

  lemma {:induction false} DotPositive(l: Vector, r: Vector, n: nat)
    ensures Dot(l, r, n) > 0 <==> exists i {:trigger At(l, i)} :: 0 <= i < n && At(l, i) > 0 && At(r, i) > 0
  {
    if n > 0 {
      DotPositive(l, r, n - 1);
      ProductPositive(At(l, n - 1), At(r, n - 1));
    }
  }

  lemma ProductPositive(x: nat, y: nat)
    ensures x * y > 0 <==> x > 0 && y > 0
  {
  }

  /** One step of Cauchy-Schwarz. */
  lemma CauchyStep(a: nat, b: nat, c: nat, x: nat, y: nat)
    requires a * a <= b * c
    ensures (a + x * y) * (a + x * y) <= (b + x * x) * (c + y * y)
  {
    var u, s, t := x * y, x * x, y * y;
    ProductSquared(x, y);
    CrossTerms(a, b, c, u, s, t);
    SquareOfSum(a, u);
    ProductOfSums(b, s, c, t);
  }

  lemma ProductSquared(x: nat, y: nat)
    ensures (x * y) * (x * y) == (x * x) * (y * y)
  {
    var z := x * y;
    assert z * z == x * (y * z) && y * z == x * (y * y);
    assert x * (x * (y * y)) == (x * x) * (y * y);
  }

  lemma SquareOfSum(a: nat, u: nat)
    ensures (a + u) * (a + u) == a * a + 2 * (a * u) + u * u
  {
  }

  lemma ProductOfSums(b: nat, s: nat, c: nat, t: nat)
    ensures (b + s) * (c + t) == b * c + b * t + c * s + s * t
  {
  }

  /** The cross terms are bounded by the mean inequality. */
  lemma CrossTerms(a: nat, b: nat, c: nat, u: nat, s: nat, t: nat)
    requires a * a <= b * c && u * u == s * t
    ensures 2 * (a * u) <= b * t + c * s
  {
    var m, p, q := a * u, b * t, c * s;
    ProductSquared(a, u);
    ProductsOrdered(a * a, b * c, u * u);
    Regroup(b, c, s, t);
    MeanInequality(m, p, q);
  }

  lemma Regroup(b: nat, c: nat, s: nat, t: nat)
    ensures (b * t) * (c * s) == (b * c) * (s * t)
  {
    assert (b * t) * (c * s) == b * (t * (c * s));
    assert t * (c * s) == c * (s * t);
    assert b * (c * (s * t)) == (b * c) * (s * t);
  }

  lemma ProductsOrdered(u: nat, v: nat, w: nat)
    requires u <= v
    ensures u * w <= v * w
  {
  }

  /** The arithmetic mean of two numbers is at least their geometric mean. */
  lemma MeanInequality(m: nat, p: nat, q: nat)
    requires m * m <= p * q
    ensures 2 * m <= p + q
  {
    assert (2 * m) * (2 * m) == 4 * (m * m);
    assert (p + q) * (p + q) == (p - q) * (p - q) + 4 * (p * q);
    assert (p - q) * (p - q) >= 0;
    if 2 * m > p + q {
      SquaresOrdered(p + q, 2 * m);
      assert false;
    }
  }

  lemma SquaresOrdered(u: nat, v: nat)
    requires u < v
    ensures u * u < v * v
  {
    assert u * u <= u * v;
    assert u * v < v * v;
  }

  /** Cauchy-Schwarz: the squared inner product never exceeds the product of the squared norms. */
  lemma {:induction false} CauchySchwarz(l: Vector, r: Vector, n: nat)
    ensures Dot(l, r, n) * Dot(l, r, n) <= Dot(l, l, n) * Dot(r, r, n)
  {
    if n > 0 {
      CauchySchwarz(l, r, n - 1);
      CauchyStep(Dot(l, r, n - 1), Dot(l, l, n - 1), Dot(r, r, n - 1), At(l, n - 1), At(r, n - 1));
    }
  }

  // ---------------------------------------------------------------- the score

  /**
    The square of `_cosine`: the source divides by the product of two square roots. Scores are never
    negative, so comparing squares is comparing scores.
   */
  function SquaredScore(l: Vector, r: Vector): real {
    var numerator := Dot(l, r, EMBEDDING_DIMENSION);
    var denominator := Dot(l, l, EMBEDDING_DIMENSION) * Dot(r, r, EMBEDDING_DIMENSION);
    Quotient(numerator * numerator, denominator)
  }

  /** `numerator / denominator if denominator else 0.0` */
  function Quotient(numerator: nat, denominator: nat): real {
    if denominator == 0 then 0.0 else numerator as real / denominator as real
  }

  /** `_cosine`, squared: three sums over dictionary items. */
  method SquaredCosine(left: Vector, right: Vector) returns (score: real)
    ensures score == SquaredScore(left, right)
  {
    hide Dot;
    var numerator := SparseDot(left, right);
    var leftNorm := SparseDot(left, left);
    var rightNorm := SparseDot(right, right);
    var denominator := leftNorm * rightNorm;
    score := Quotient(numerator * numerator, denominator);
  }

  lemma QuotientInUnit(x: nat, y: nat)
    requires 0 < y && x <= y
    ensures 0.0 <= x as real / y as real <= 1.0
    ensures x as real / y as real > 0.0 <==> x > 0
  {
  }

  lemma ScoreInUnitInterval(l: Vector, r: Vector)
    ensures 0.0 <= SquaredScore(l, r) <= 1.0
  {
    hide Dot;
    CauchySchwarz(l, r, EMBEDDING_DIMENSION);
    var x, y := Dot(l, r, EMBEDDING_DIMENSION) * Dot(l, r, EMBEDDING_DIMENSION), Dot(l, l, EMBEDDING_DIMENSION) * Dot(r, r, EMBEDDING_DIMENSION);
    if y != 0 {
      QuotientInUnit(x, y);
    }
  }

  /** Although each side iterates different keys, swapping the texts keeps the score. */
  lemma ScoreSymmetric(l: Vector, r: Vector)
    ensures SquaredScore(l, r) == SquaredScore(r, l)
  {
    hide Dot;
    DotSymmetric(l, r, EMBEDDING_DIMENSION);
  }

  ghost predicate ShareBucket(a: seq<string>, b: seq<string>, bucket: string -> Bucket) {
    exists s, t :: s in a && t in b && bucket(s) == bucket(t)
  }

  lemma {:induction false} CountPositive(tokens: seq<string>, bucket: string -> Bucket, i: int)
    ensures Count(tokens, bucket, i) > 0 <==> exists t :: t in tokens && bucket(t) == i
  {
    if tokens != [] {
      CountPositive(Init(tokens), bucket, i);
      assert tokens == Init(tokens) + [Last(tokens)];
    }
  }

  lemma PositiveIffOverlap(l: Vector, r: Vector)
    ensures SquaredScore(l, r) > 0.0 <==> Dot(l, r, EMBEDDING_DIMENSION) > 0
  {
    hide Dot;
    CauchySchwarz(l, r, EMBEDDING_DIMENSION);
    var n := Dot(l, r, EMBEDDING_DIMENSION);
    var x, y := n * n, Dot(l, l, EMBEDDING_DIMENSION) * Dot(r, r, EMBEDDING_DIMENSION);
    ProductPositive(n, n);
    if y != 0 {
      QuotientInUnit(x, y);
    }
  }

  /** A task scores above zero against a text exactly when some of their tokens share a bucket. */
  lemma PositiveIffSharedBucket(a: seq<string>, b: seq<string>, bucket: string -> Bucket)
    ensures SquaredScore(Embedding(a, bucket), Embedding(b, bucket)) > 0.0 <==> ShareBucket(a, b, bucket)
  {
    hide Dot, SquaredScore, Embedding, Count;
    var l, r := Embedding(a, bucket), Embedding(b, bucket);
    PositiveIffOverlap(l, r);
    DotPositive(l, r, EMBEDDING_DIMENSION);
    if exists i {:trigger At(l, i)} :: 0 <= i < EMBEDDING_DIMENSION && At(l, i) > 0 && At(r, i) > 0 {
      var i {:trigger At(l, i)} :| 0 <= i < EMBEDDING_DIMENSION && At(l, i) > 0 && At(r, i) > 0;
      EmbeddingCounts(a, bucket, i);
      EmbeddingCounts(b, bucket, i);
      CountPositive(a, bucket, i);
      CountPositive(b, bucket, i);
    }
    if ShareBucket(a, b, bucket) {
      var s, t :| s in a && t in b && bucket(s) == bucket(t);
      EmbeddingCounts(a, bucket, bucket(s));
      EmbeddingCounts(b, bucket, bucket(s));
      CountPositive(a, bucket, bucket(s));
      CountPositive(b, bucket, bucket(s));
      assert At(l, bucket(s)) > 0 && At(r, bucket(s)) > 0;
    }
  }

  lemma {:induction false} NormIsPositive(v: Vector, n: nat, i: nat)
    requires i < n && At(v, i) > 0
    ensures Dot(v, v, n) > 0
  {
    if i == n - 1 {
      ProductPositive(At(v, i), At(v, i));
    } else {
      NormIsPositive(v, n - 1, i);
    }
  }

  /** A text without tokens scores zero against every text, and any other scores one against itself. */
  lemma ScoreOfSelf(tokens: seq<string>, bucket: string -> Bucket)
    ensures var v := Embedding(tokens, bucket); SquaredScore(v, v) == if tokens == [] then 0.0 else 1.0
  {
    hide Dot, Embedding;
    var v := Embedding(tokens, bucket);
    var norm := Dot(v, v, EMBEDDING_DIMENSION);
    if tokens == [] {
      assert norm == 0 by { EmptyHasNoNorm(bucket); }
    } else {
      var i := bucket(tokens[0]);
      EmbeddingCounts(tokens, bucket, i);
      CountPositive(tokens, bucket, i);
      NormIsPositive(v, EMBEDDING_DIMENSION, i);
      ProductPositive(norm, norm);
      SameQuotient(norm * norm);
    }
  }

  lemma SameQuotient(x: nat)
    requires x > 0
    ensures x as real / x as real == 1.0
  {
  }

  lemma EmptyHasNoNorm(bucket: string -> Bucket)
    ensures Dot(Embedding([], bucket), Embedding([], bucket), EMBEDDING_DIMENSION) == 0
  {
    DotPositive(Embedding([], bucket), Embedding([], bucket), EMBEDDING_DIMENSION);
  }

  /** Scaling one side scales the inner product. */
  lemma {:induction false} DotScales(l: Vector, m: Vector, r: Vector, k: nat, n: nat)
    requires forall i :: At(m, i) == k * At(l, i)
    ensures Dot(m, r, n) == k * Dot(l, r, n) && Dot(m, m, n) == (k * k) * Dot(l, l, n)
  {
    if n > 0 {
      hide At;
      DotScales(l, m, r, k, n - 1);
      var x, y := At(l, n - 1), At(r, n - 1);
      assert At(m, n - 1) == k * x;
      ScaledTerm(x, y, k, Dot(l, r, n - 1), Dot(l, l, n - 1));
    }
  }

  lemma ScaledTerm(x: nat, y: nat, k: nat, d: nat, e: nat)
    ensures k * d + (k * x) * y == k * (d + x * y)
    ensures (k * k) * e + (k * x) * (k * x) == (k * k) * (e + x * x)
  {
    assert (k * x) * y == k * (x * y);
    ProductSquared(k, x);
  }

  /** Writing a text twice changes none of its scores. */
  lemma ScoreIgnoresRepetition(a: seq<string>, b: seq<string>, bucket: string -> Bucket)
    ensures SquaredScore(Embedding(a + a, bucket), Embedding(b, bucket)) == SquaredScore(Embedding(a, bucket), Embedding(b, bucket))
  {
    hide Dot, Embedding;
    var l, m, r := Embedding(a, bucket), Embedding(a + a, bucket), Embedding(b, bucket);
    forall i
      ensures At(m, i) == 2 * At(l, i)
    {
      EmbeddingOfConcat(a, a, bucket, i);
    }
    DotScales(l, m, r, 2, EMBEDDING_DIMENSION);
    ScaledScore(Dot(l, r, EMBEDDING_DIMENSION), Dot(l, l, EMBEDDING_DIMENSION), Dot(r, r, EMBEDDING_DIMENSION));
  }

  lemma ScaledScore(d: nat, e: nat, f: nat)
    ensures Quotient((2 * d) * (2 * d), (2 * 2) * e * f) == Quotient(d * d, e * f)
  {
    var x, y := d * d, e * f;
    assert (2 * d) * (2 * d) == 4 * x;
    assert (2 * 2) * e * f == 4 * y;
    QuotientScales(x, y);
  }

  lemma QuotientScales(x: nat, y: nat)
    ensures Quotient(4 * x, 4 * y) == Quotient(x, y)
  {
    if y > 0 {
      assert (4 * x) as real == 4.0 * x as real && (4 * y) as real == 4.0 * y as real;
    }
  }
}
