/** Hashed bag-of-words embeddings and their cosine similarity, over the reals.
    Similarities are compared through their squares: components are counts, so
    no similarity is negative and squaring keeps the order. */
module Embeddings {
  import Common

  const DIM: nat := 4096
  const MIN_TOKEN_LEN: nat := 2

  /** A sparse vector: bucket to count. */
  type Vec = map<nat, real>

  predicate Embedded(v: Vec) {
    forall b :: b in v ==> b < DIM && v[b] > 0.0
  }

  // ----- tokens -----

  predicate IsTokenChar(c: char) {
    'a' <= c <= 'z' || '0' <= c <= '9'
  }

  /** Splits lower-cased text on everything but letters and digits, dropping
      pieces shorter than two characters; `word` is the piece being read. */
  function Tokens(text: string, word: string): seq<string>
    decreases |text|
  {
    var done := if |word| >= MIN_TOKEN_LEN then [word] else [];
    if text == "" then done
    else if IsTokenChar(Common.LowerChar(text[0])) then Tokens(text[1..], word + [Common.LowerChar(text[0])])
    else done + Tokens(text[1..], "")
  }

  function FnvByte(h: bv32, c: char): bv32 {
    (h ^ ((c as int % 256) as bv32)) * 0x0100_0193
  }

  function Fnv(token: string): bv32 {
    if token == "" then 0x811C_9DC5 else FnvByte(Fnv(token[..|token| - 1]), token[|token| - 1])
  }

  /** FNV-1a over the token's (ASCII) bytes, in 32-bit arithmetic. */
  method Fnv1a32(token: string) returns (h: bv32)
    ensures h == Fnv(token)
  {
    hide FnvByte;
    h := 0x811C_9DC5;
    for i := 0 to |token|
      invariant h == Fnv(token[..i])
    {
      assert token[..i + 1][..i] == token[..i];
      h := FnvByte(h, token[i]);
    }
    assert token[..|token|] == token;
  }

  function BucketOf(token: string): (b: nat)
    ensures b < DIM
  {
    (Fnv(token) as int) % DIM
  }

  // ----- embedding -----

  function Count(tokens: seq<string>, b: nat): nat {
    if tokens == [] then 0
    else Count(tokens[..|tokens| - 1], b) + if BucketOf(tokens[|tokens| - 1]) == b then 1 else 0
  }

  /** How often each bucket is hit, for the buckets that are hit. */
  function Counts(tokens: seq<string>): Vec {
    map b: nat | b < DIM && Count(tokens, b) > 0 :: Count(tokens, b) as real
  }

  function Embedding(text: string): Vec {
    Counts(Tokens(text, ""))
  }

  lemma EmbeddingIsEmbedded(text: string)
    ensures Embedded(Embedding(text))
  {
  }

  method Embed(text: string) returns (vec: Vec)
    ensures vec == Embedding(text)
  {
    vec := map[];
    var tokens := Tokens(text, "");
    for i := 0 to |tokens|
      invariant vec == Counts(tokens[..i])
    {
      var h := Fnv1a32(tokens[i]);
      var bucket := (h as int) % DIM;
      CountsGrow(tokens[..i], tokens[i]);
      assert tokens[..i + 1] == tokens[..i] + [tokens[i]];
      vec := vec[bucket := (if bucket in vec then vec[bucket] else 0.0) + 1.0];
    }
    assert tokens[..|tokens|] == tokens;
  }

  lemma CountsGrow(tokens: seq<string>, token: string)
    ensures var b := BucketOf(token);
            Counts(tokens + [token])
            == Counts(tokens)[b := (if b in Counts(tokens) then Counts(tokens)[b] else 0.0) + 1.0]
  {
    assert (tokens + [token])[..|tokens|] == tokens;
    hide BucketOf;
    assert forall b :: Count(tokens + [token], b) == Count(tokens, b) + if BucketOf(token) == b then 1 else 0;
  }

  lemma {:induction false} CountConcat(one: seq<string>, other: seq<string>, b: nat)
    ensures Count(one + other, b) == Count(one, b) + Count(other, b)
  {
    hide BucketOf;
    if other == [] {
      assert one + other == one;
    } else {
      var n := |other| - 1;
      CountConcat(one, other[..n], b);
      assert (one + other)[..|one| + n] == one + other[..n];
    }
  }

  lemma {:induction false} CountRemove(tokens: seq<string>, i: nat, b: nat)
    requires i < |tokens|
    ensures Count(tokens, b) == Count(tokens[..i] + tokens[i + 1..], b) + if BucketOf(tokens[i]) == b then 1 else 0
  {
    hide BucketOf;
    var n := |tokens| - 1;
    if i == n {
      assert tokens[..i] + tokens[i + 1..] == tokens[..n];
    } else {
      CountRemove(tokens[..n], i, b);
      var fewer := tokens[..n][..i] + tokens[..n][i + 1..];
      assert tokens[i + 1..] == tokens[..n][i + 1..] + [tokens[n]];
      assert tokens[..i] + tokens[i + 1..] == fewer + [tokens[n]];
      assert (fewer + [tokens[n]])[..|fewer|] == fewer;
    }
  }

  lemma {:induction false} CountIgnoresOrder(one: seq<string>, other: seq<string>, b: nat)
    requires multiset(one) == multiset(other)
    ensures Count(one, b) == Count(other, b)
    decreases |one|
  {
    hide BucketOf;
    if one == [] {
      assert |multiset(other)| == 0;
    } else {
      var n := |one| - 1;
      assert one[n] in multiset(other);
      var i: nat :| i < |other| && other[i] == one[n];
      assert one == one[..n] + [one[n]];
      assert other == other[..i] + [other[i]] + other[i + 1..];
      assert multiset(one[..n]) == multiset(one) - multiset{one[n]};
      assert multiset(other[..i] + other[i + 1..]) == multiset(other) - multiset{other[i]};
      CountIgnoresOrder(one[..n], other[..i] + other[i + 1..], b);
      CountRemove(other, i, b);
    }
  }

  /** Reordering the tokens of a text does not change its embedding. */
  lemma EmbeddingIgnoresOrder(one: string, other: string)
    requires multiset(Tokens(one, "")) == multiset(Tokens(other, ""))
    ensures Embedding(one) == Embedding(other)
  {
    forall b
      ensures Count(Tokens(one, ""), b) == Count(Tokens(other, ""), b)
    {
      CountIgnoresOrder(Tokens(one, ""), Tokens(other, ""), b);
    }
  }

  // ----- inner products -----

  function At(v: Vec, i: nat): real {
    if i in v then v[i] else 0.0
  }

  function Times(x: real, y: real): real {
    x * y
  }

  /** The dense inner product over the first `n` buckets. */
  function Dot(a: Vec, b: Vec, n: nat): real {
    if n == 0 then 0.0 else Dot(a, b, n - 1) + Times(At(a, n - 1), At(b, n - 1))
  }

  lemma {:induction false} DotSymmetric(a: Vec, b: Vec, n: nat)
    ensures Dot(a, b, n) == Dot(b, a, n)
  {
    if n > 0 {
      DotSymmetric(a, b, n - 1);
    }
  }

  lemma TimesNonNegative(x: real, y: real)
    requires x >= 0.0 && y >= 0.0
    ensures Times(x, y) >= 0.0
    ensures x > 0.0 && y > 0.0 ==> Times(x, y) > 0.0
  {
  }

  lemma SquareSign(x: real)
    ensures Times(x, x) >= 0.0
    ensures Times(x, x) == 0.0 <==> x == 0.0
  {
    if x >= 0.0 {
      TimesNonNegative(x, x);
    } else {
      TimesNonNegative(-x, -x);
      assert Times(-x, -x) == Times(x, x);
    }
  }

  lemma {:induction false} NormNonNegative(v: Vec, n: nat)
    ensures Dot(v, v, n) >= 0.0
  {
    hide Times;
    if n > 0 {
      NormNonNegative(v, n - 1);
      SquareSign(At(v, n - 1));
    }
  }

  lemma {:induction false} NormZero(v: Vec, n: nat)
    requires Dot(v, v, n) == 0.0
    ensures forall i: nat :: i < n ==> At(v, i) == 0.0
  {
    hide Times;
    if n > 0 {
      NormNonNegative(v, n - 1);
      SquareSign(At(v, n - 1));
      NormZero(v, n - 1);
    }
  }

  lemma {:induction false} NormPositive(v: Vec, n: nat, i: nat)
    requires i < n && At(v, i) != 0.0
    ensures Dot(v, v, n) > 0.0
  {
    NormNonNegative(v, n);
    if Dot(v, v, n) == 0.0 {
      NormZero(v, n);
    }
  }

  lemma {:induction false} DotWithZero(a: Vec, b: Vec, n: nat)
    requires forall i: nat :: i < n ==> At(b, i) == 0.0
    ensures Dot(a, b, n) == 0.0
  {
    if n > 0 {
      DotWithZero(a, b, n - 1);
    }
  }

  // ----- Cauchy-Schwarz -----

  function Miss(x: real, y: real, l: real): real {
    (x - l * y) * (x - l * y)
  }

  /** The squared distance of `a` from `l` times `b`. */
  function Gap(a: Vec, b: Vec, l: real, n: nat): real {
    if n == 0 then 0.0 else Gap(a, b, l, n - 1) + Miss(At(a, n - 1), At(b, n - 1), l)
  }

  function Parabola(s: real, d: real, t: real, l: real): real {
    s - 2.0 * l * d + l * l * t
  }

  lemma MissNonNegative(x: real, y: real, l: real)
    ensures Miss(x, y, l) >= 0.0
  {
    SquareSign(x - l * y);
  }

  lemma {:induction false} GapNonNegative(a: Vec, b: Vec, l: real, n: nat)
    ensures Gap(a, b, l, n) >= 0.0
  {
    hide Miss;
    if n > 0 {
      GapNonNegative(a, b, l, n - 1);
      MissNonNegative(At(a, n - 1), At(b, n - 1), l);
    }
  }

  lemma ParabolaStep(s: real, d: real, t: real, x: real, y: real, l: real)
    ensures Parabola(s + Times(x, x), d + Times(x, y), t + Times(y, y), l) == Parabola(s, d, t, l) + Miss(x, y, l)
  {
    assert (x - l * y) * (x - l * y) == x * x - 2.0 * l * (x * y) + l * l * (y * y);
  }

  lemma {:induction false} GapIsParabola(a: Vec, b: Vec, l: real, n: nat)
    ensures Gap(a, b, l, n) == Parabola(Dot(a, a, n), Dot(a, b, n), Dot(b, b, n), l)
  {
    if n == 0 {
      assert Parabola(0.0, 0.0, 0.0, l) == 0.0;
    } else {
      hide Miss, Parabola, Times;
      GapIsParabola(a, b, l, n - 1);
      ParabolaStep(Dot(a, a, n - 1), Dot(a, b, n - 1), Dot(b, b, n - 1), At(a, n - 1), At(b, n - 1), l);
    }
  }

  lemma Discriminant(s: real, d: real, t: real)
    requires t > 0.0 && Parabola(s, d, t, d / t) >= 0.0
    ensures Times(d, d) <= Times(s, t)
  {
    var q := d / t;
    assert q * t == d;
    assert q * q * t == q * d;
    assert s - q * d >= 0.0;
    TimesNonNegative(s - q * d, t);
    assert (s - q * d) * t == s * t - (q * t) * d;
  }

  lemma CauchySchwarz(a: Vec, b: Vec, n: nat)
    ensures Times(Dot(a, b, n), Dot(a, b, n)) <= Times(Dot(a, a, n), Dot(b, b, n))
  {
    hide Dot, Gap, Parabola;
    NormNonNegative(b, n);
    if Dot(b, b, n) == 0.0 {
      NormZero(b, n);
      DotWithZero(a, b, n);
    } else {
      var l := Dot(a, b, n) / Dot(b, b, n);
      GapNonNegative(a, b, l, n);
      GapIsParabola(a, b, l, n);
      Discriminant(Dot(a, a, n), Dot(a, b, n), Dot(b, b, n));
    }
  }

  /** `b` is `k` times `a`, bucket by bucket. */
  ghost predicate Scaled(a: Vec, b: Vec, k: real) {
    forall i: nat :: i < DIM ==> At(b, i) == Times(k, At(a, i))
  }

  lemma Distributes(k: real, x: real, y: real)
    ensures Times(k, x) + Times(k, y) == Times(k, x + y)
  {
  }

  lemma ScaledProducts(k: real, x: real)
    ensures Times(x, Times(k, x)) == Times(k, Times(x, x))
    ensures Times(Times(k, x), Times(k, x)) == Times(Times(k, k), Times(x, x))
  {
    assert x * (k * x) == k * (x * x);
    assert (k * x) * (k * x) == (k * k) * (x * x);
  }

  lemma TimesZero(k: real)
    ensures Times(k, 0.0) == 0.0
  {
  }

  lemma {:induction false} DotScaled(a: Vec, b: Vec, k: real, n: nat)
    requires Scaled(a, b, k) && n <= DIM
    ensures Dot(a, b, n) == Times(k, Dot(a, a, n))
    ensures Dot(b, b, n) == Times(Times(k, k), Dot(a, a, n))
  {
    hide Times;
    if n == 0 {
      TimesZero(k);
      TimesZero(Times(k, k));
    } else {
      DotScaled(a, b, k, n - 1);
      var x := At(a, n - 1);
      assert At(b, n - 1) == Times(k, x);
      ScaledProducts(k, x);
      Distributes(k, Dot(a, a, n - 1), Times(x, x));
      Distributes(Times(k, k), Dot(a, a, n - 1), Times(x, x));
    }
  }

  lemma {:induction false} GapZero(a: Vec, b: Vec, l: real, n: nat)
    requires Gap(a, b, l, n) == 0.0
    ensures forall i: nat :: i < n ==> At(a, i) == l * At(b, i)
  {
    if n > 0 {
      hide Miss;
      GapNonNegative(a, b, l, n - 1);
      MissNonNegative(At(a, n - 1), At(b, n - 1), l);
      MissZero(At(a, n - 1), At(b, n - 1), l);
      GapZero(a, b, l, n - 1);
    }
  }

  lemma MissZero(x: real, y: real, l: real)
    ensures Miss(x, y, l) == 0.0 ==> x == l * y
  {
    SquareSign(x - l * y);
  }

  // ----- cosine -----

  function Ratio(d: real, s: real, t: real): real {
    if s == 0.0 || t == 0.0 || s * t == 0.0 then 0.0 else (d * d) / (s * t)
  }

  /** The square of the cosine similarity; zero when either side is empty. */
  function SimSq(a: Vec, b: Vec): real {
    if a == map[] || b == map[] then 0.0 else Ratio(Dot(a, b, DIM), Dot(a, a, DIM), Dot(b, b, DIM))
  }

  lemma RatioInUnit(d: real, s: real, t: real)
    requires s >= 0.0 && t >= 0.0 && Times(d, d) <= Times(s, t)
    ensures 0.0 <= Ratio(d, s, t) <= 1.0
  {
    SquareSign(d);
    TimesNonNegative(s, t);
    if s * t > 0.0 {
      Quotient(d * d, s * t);
    }
  }

  lemma Quotient(p: real, q: real)
    requires 0.0 <= p <= q && q > 0.0
    ensures 0.0 <= p / q <= 1.0
    ensures p == q ==> p / q == 1.0
  {
  }

  lemma RatioSelf(d: real)
    requires d > 0.0
    ensures Ratio(d, d, d) == 1.0
  {
    TimesNonNegative(d, d);
    Quotient(d * d, d * d);
  }

  lemma RatioSwap(d: real, s: real, t: real)
    ensures Ratio(d, s, t) == Ratio(d, t, s)
  {
    assert s * t == t * s;
  }

  lemma SimSymmetric(a: Vec, b: Vec)
    ensures SimSq(a, b) == SimSq(b, a)
  {
    hide Dot, Ratio;
    DotSymmetric(a, b, DIM);
    RatioSwap(Dot(a, b, DIM), Dot(a, a, DIM), Dot(b, b, DIM));
  }

  /** A similarity lies in [0, 1], whichever side comes first, and a non-empty
      embedding has similarity one with itself. */
  lemma SimilarityRange(a: Vec, b: Vec)
    ensures 0.0 <= SimSq(a, b) <= 1.0
    ensures SimSq(a, b) == SimSq(b, a)
    ensures Embedded(a) && a != map[] ==> SimSq(a, a) == 1.0
  {
    hide Dot, Ratio;
    CauchySchwarz(a, b, DIM);
    NormNonNegative(a, DIM);
    NormNonNegative(b, DIM);
    RatioInUnit(Dot(a, b, DIM), Dot(a, a, DIM), Dot(b, b, DIM));
    SimSymmetric(a, b);
    if Embedded(a) && a != map[] {
      var i :| i in a;
      NormPositive(a, DIM, i);
      RatioSelf(Dot(a, a, DIM));
    }
  }

  lemma RatioScaled(s: real, k: real)
    requires s > 0.0 && k > 0.0
    ensures Ratio(Times(k, s), s, Times(Times(k, k), s)) == 1.0
  {
    var p := Times(k, s);
    TimesNonNegative(k, s);
    TimesNonNegative(p, p);
    assert s * (k * k * s) == p * p;
    Quotient(p * p, p * p);
  }

  lemma RatioOne(d: real, s: real, t: real)
    requires t > 0.0 && Ratio(d, s, t) == 1.0
    ensures Parabola(s, d, t, d / t) == 0.0
  {
    var q := d / t;
    assert q * t == d;
    assert d * d == s * t by {
      assert (d * d) / (s * t) == 1.0;
    }
    assert (s - q * d) * t == s * t - (q * t) * d;
    assert s - q * d == 0.0;
    assert q * q * t == q * d;
  }

  /** Similarity is one exactly for proportional embeddings: one text's word
      counts are a multiple of the other's. */
  lemma SimilarityOneIff(a: Vec, b: Vec)
    requires Embedded(a) && Embedded(b) && a != map[] && b != map[]
    ensures SimSq(a, b) == 1.0 <==> exists k :: k > 0.0 && Scaled(b, a, k)
  {
    hide Dot, Ratio, Scaled, Times, Parabola, Gap;
    var i :| i in b;
    NormPositive(b, DIM, i);
    if SimSq(a, b) == 1.0 {
      var l := Dot(a, b, DIM) / Dot(b, b, DIM);
      RatioOne(Dot(a, b, DIM), Dot(a, a, DIM), Dot(b, b, DIM));
      GapIsParabola(a, b, l, DIM);
      GapZero(a, b, l, DIM);
      GapScales(a, b, l);
    }
    forall k | k > 0.0 && Scaled(b, a, k)
      ensures SimSq(a, b) == 1.0
    {
      ScaledIsSimilar(b, a, k);
    }
  }

  lemma GapScales(a: Vec, b: Vec, l: real)
    requires Embedded(a) && Embedded(b) && a != map[]
    requires forall i: nat :: i < DIM ==> At(a, i) == l * At(b, i)
    ensures l > 0.0 && Scaled(b, a, l)
  {
    var i :| i in a;
    assert At(a, i) > 0.0 && At(b, i) >= 0.0;
    if l <= 0.0 {
      TimesNonNegative(-l, At(b, i));
    }
  }

  lemma ScaledIsSimilar(a: Vec, b: Vec, k: real)
    requires Embedded(a) && a != map[] && b != map[] && k > 0.0 && Scaled(a, b, k)
    ensures SimSq(a, b) == 1.0 && SimSq(b, a) == 1.0
  {
    hide Dot, Ratio, Scaled, Times;
    var i :| i in a;
    NormPositive(a, DIM, i);
    DotScaled(a, b, k, DIM);
    RatioScaled(Dot(a, a, DIM), k);
    SimSymmetric(a, b);
  }

  /** Embeddings are counts, so the inner product itself is not negative. */
  lemma {:induction false} DotNonNegative(a: Vec, b: Vec, n: nat)
    requires Embedded(a) && Embedded(b)
    ensures Dot(a, b, n) >= 0.0
  {
    if n > 0 {
      DotNonNegative(a, b, n - 1);
      TimesNonNegative(At(a, n - 1), At(b, n - 1));
    }
  }

  /** Similarities are not negative, so their squares compare as they do, with
      each other and with a bound. */
  lemma SquaresKeepOrder(x: real, y: real, bound: real)
    requires x >= 0.0 && y >= 0.0 && bound >= 0.0
    ensures x > y <==> x * x > y * y
    ensures x >= bound <==> x * x >= bound * bound
  {
    SquareAbove(x, y);
    SquareAbove(y, x);
    SquareAbove(bound, x);
  }

  lemma SquareAbove(x: real, y: real)
    requires x >= 0.0 && y >= 0.0
    ensures x > y ==> x * x > y * y
  {
    if x > y {
      assert (x - y) * (x + y) > 0.0 by {
        TimesNonNegative(x - y, x + y);
      }
      assert (x - y) * (x + y) == x * x - y * y;
    }
  }

  /** The part of the inner product over the buckets in `keys`. */
  function DotOver(a: Vec, b: Vec, keys: set<nat>, n: nat): real {
    if n == 0 then 0.0
    else DotOver(a, b, keys, n - 1) + if n - 1 in keys then Times(At(a, n - 1), At(b, n - 1)) else 0.0
  }

  lemma {:induction false} DotOverRemove(a: Vec, b: Vec, keys: set<nat>, k: nat, n: nat)
    requires k in keys
    ensures DotOver(a, b, keys, n) == DotOver(a, b, keys - {k}, n) + if k < n then Times(At(a, k), At(b, k)) else 0.0
  {
    if n > 0 {
      DotOverRemove(a, b, keys, k, n - 1);
    }
  }

  lemma {:induction false} DotOverAll(a: Vec, b: Vec, n: nat)
    ensures DotOver(a, b, a.Keys, n) == Dot(a, b, n)
    ensures DotOver(a, b, {}, n) == 0.0
  {
    if n > 0 {
      DotOverAll(a, b, n - 1);
    }
  }

  /** The sparse loop: visits the buckets of `a` in any order and looks each up in `b`. */
  method SparseDot(a: Vec, b: Vec) returns (dot: real)
    requires Embedded(a)
    ensures dot == Dot(a, b, DIM)
  {
    dot := 0.0;
    var keys := a.Keys;
    DotOverAll(a, b, DIM);
    while keys != {}
      invariant keys <= a.Keys
      invariant dot + DotOver(a, b, keys, DIM) == Dot(a, b, DIM)
      decreases |keys|
    {
      var k :| k in keys;
      DotOverRemove(a, b, keys, k, DIM);
      if k in b {
        dot := dot + a[k] * b[k];
      }
      keys := keys - {k};
    }
  }

  lemma SimSqEitherWay(a: Vec, b: Vec)
    requires a != map[] && b != map[]
    ensures SimSq(a, b) == Ratio(Dot(a, b, DIM), Dot(a, a, DIM), Dot(b, b, DIM))
    ensures SimSq(a, b) == Ratio(Dot(b, a, DIM), Dot(b, b, DIM), Dot(a, a, DIM))
  {
    hide Dot, Ratio;
    SimSymmetric(a, b);
  }

  lemma RatioDefined(d: real, s: real, t: real)
    ensures s == 0.0 || t == 0.0 ==> Ratio(d, s, t) == 0.0
    ensures s != 0.0 && t != 0.0 ==> s * t != 0.0 && Ratio(d, s, t) == (d * d) / (s * t)
  {
    if s != 0.0 && t != 0.0 {
      NonZeroProduct(s, t);
    }
  }

  lemma NothingSimilar(a: Vec, b: Vec)
    requires a == map[] || b == map[]
    ensures SimSq(a, b) == 0.0
  {
  }

  method CosineSquared(a: Vec, b: Vec) returns (sim: real)
    requires Embedded(a) && Embedded(b)
    ensures sim == SimSq(a, b)
  {
    hide Dot, SimSq, Ratio, Times, Embedded;
    if a == map[] || b == map[] {
      NothingSimilar(a, b);
      return 0.0;
    }
    var x, y := a, b;
    if |x| > |y| {
      x, y := y, x;
    }
    SimSqEitherWay(a, b);
    var dot := SparseDot(x, y);
    var normX := SparseDot(x, x);
    var normY := SparseDot(y, y);
    RatioDefined(dot, normX, normY);
    if normX == 0.0 || normY == 0.0 {
      return 0.0;
    }
    sim := (dot * dot) / (normX * normY);
  }

  lemma NonZeroProduct(x: real, y: real)
    requires x != 0.0 && y != 0.0
    ensures x * y != 0.0
  {
  }
}
