/**
 Runbook retrieval by cosine similarity over hashed bags of words
 (backend/app/rag/embedder.py and backend/app/rag/retriever.py).

 A norm is the non-negative number whose square is the sum of squares. Retrieval compares squares of
 similarities, and so needs no norm; the lemmas on `Similarity` show that this is the same order.
 */
module Retrieval {
  import opened Wrappers
  import opened Counting
  import opened Reals
  import opened Sorting

  /** A hash of tokens into dims buckets. */
  datatype Hashing = Hashing(bucket: string -> nat, dims: nat)

  ghost predicate InRange(h: Hashing) {
    forall t :: h.bucket(t) < h.dims
  }

  function Hits(h: Hashing, i: nat): string -> bool {
    t => h.bucket(t) == i
  }

  /** The unnormalised embedding: tokens per bucket. */
  function Buckets(h: Hashing, tokens: seq<string>): (v: seq<real>)
    ensures |v| == h.dims && forall i :: 0 <= i < h.dims ==> v[i] == CountIf(Hits(h, i), tokens) as real
  {
    seq(h.dims, i requires 0 <= i < h.dims => CountIf(Hits(h, i), tokens) as real)
  }

  method Embed(h: Hashing, tokens: seq<string>) returns (v: seq<real>)
    requires InRange(h)
    ensures v == Buckets(h, tokens)
  {
    var vector := new real[h.dims](_ => 0.0);
    for k := 0 to |tokens|
      invariant forall i :: 0 <= i < h.dims ==> vector[i] == CountIf(Hits(h, i), tokens[..k]) as real
    {
      assert tokens[..k + 1][..k] == tokens[..k];
      var i := h.bucket(tokens[k]);
      vector[i] := vector[i] + 1.0;
    }
    assert tokens[..|tokens|] == tokens;
    v := vector[..];
  }

  /** The embedding depends only on the multiset of tokens. */
  lemma EmbeddingPermuted(h: Hashing, a: seq<string>, b: seq<string>)
    requires multiset(a) == multiset(b)
    ensures Buckets(h, a) == Buckets(h, b)
  {
    forall i | 0 <= i < h.dims ensures Buckets(h, a)[i] == Buckets(h, b)[i] {
      CountPermuted(Hits(h, i), a, b);
    }
  }

  // ----- Similarity -----

  ghost predicate IsNorm(n: real, v: seq<real>) {
    n >= 0.0 && Sq(n) == Dot(v, v)
  }

  /** The embedding divided by its norm; the zero vector stays as it is. */
  function Normalised(v: seq<real>, n: real): (r: seq<real>)
    ensures |r| == |v| && forall i :: 0 <= i < |v| ==> r[i] == if n == 0.0 then v[i] else v[i] / n
  {
    seq(|v|, i requires 0 <= i < |v| => if n == 0.0 then v[i] else v[i] / n)
  }

  /** The similarity of two texts, given the norms of their bucket counts. */
  function Similarity(h: Hashing, s: seq<string>, t: seq<string>, m: real, n: real): real {
    Dot(Normalised(Buckets(h, s), m), Normalised(Buckets(h, t), n))
  }

  /** Its square, without norms; 0 when one of the texts has no token. */
  function Cosine2(q: seq<real>, d: seq<real>): real
    requires |q| == |d|
  {
    var norms := Mul(Dot(q, q), Dot(d, d));
    if norms == 0.0 then 0.0 else Sq(Dot(q, d)) / norms
  }

  function Similarity2(h: Hashing, s: seq<string>, t: seq<string>): real {
    Cosine2(Buckets(h, s), Buckets(h, t))
  }

  lemma {:induction false} DotCommutes(a: seq<real>, b: seq<real>)
    requires |a| == |b|
    ensures Dot(a, b) == Dot(b, a)
  {
    if a != [] { DotCommutes(a[1..], b[1..]); }
  }

  lemma {:induction false} DotNonNegative(a: seq<real>, b: seq<real>)
    requires |a| == |b|
    requires forall i :: 0 <= i < |a| ==> a[i] >= 0.0 && b[i] >= 0.0
    ensures Dot(a, b) >= 0.0
  {
    if a != [] {
      MulSign(a[0], b[0]);
      DotNonNegative(a[1..], b[1..]);
    }
  }

  lemma {:induction false} DotNormalised(a: seq<real>, n: real, b: seq<real>)
    requires |a| == |b| && n > 0.0
    ensures Mul(n, Dot(Normalised(a, n), b)) == Dot(a, b)
  {
    if a == [] {
      MulSign(n, 0.0);
    } else {
      var x, rest := a[0] / n, Dot(Normalised(a[1..], n), b[1..]);
      assert Normalised(a, n)[1..] == Normalised(a[1..], n);
      DotNormalised(a[1..], n, b[1..]);
      Quotient(a[0], n);
      hide Mul;
      MulAdd(n, Mul(x, b[0]), rest);
      MulAssoc(n, x, b[0]);
    }
  }

  lemma ZeroDot(a: seq<real>, b: seq<real>)
    requires |a| == |b| && (Dot(a, a) == 0.0 || Dot(b, b) == 0.0)
    ensures Dot(a, b) == 0.0
  {
    CauchySchwarz(a, b);
    MulSign(Dot(a, a), Dot(b, b));
    SqSign(Dot(a, b));
  }

  lemma NormalisedNonNegative(h: Hashing, s: seq<string>, n: real)
    requires n >= 0.0
    ensures forall x :: x in Normalised(Buckets(h, s), n) ==> x >= 0.0
  {
    var v := Buckets(h, s);
    forall i | 0 <= i < |v| ensures Normalised(v, n)[i] >= 0.0 {
      if n > 0.0 { ShareNonNegative(v[i], n); }
    }
  }

  lemma ShareNonNegative(x: real, n: real)
    requires x >= 0.0 && n > 0.0
    ensures x / n >= 0.0
  {
    Quotient(x, n);
    MulSign(n, x / n);
  }

  /** Both norms cancel. */
  lemma DotOfNormalised(a: seq<real>, m: real, b: seq<real>, n: real)
    requires |a| == |b| && m > 0.0 && n > 0.0
    ensures Mul(m, Mul(n, Dot(Normalised(a, m), Normalised(b, n)))) == Dot(a, b)
  {
    var x, y := Normalised(a, m), Normalised(b, n);
    DotNormalised(b, n, x);
    DotCommutes(y, x);
    DotCommutes(b, x);
    DotNormalised(a, m, b);
  }

  lemma RootOfCosine2(a: seq<real>, m: real, b: seq<real>, n: real)
    requires |a| == |b| && IsNorm(m, a) && IsNorm(n, b)
    ensures Sq(Dot(Normalised(a, m), Normalised(b, n))) == Cosine2(a, b)
  {
    var s, norms, x := Dot(Normalised(a, m), Normalised(b, n)), Mul(Dot(a, a), Dot(b, b)), Sq(Dot(a, b));
    MulSign(m, m);
    MulSign(n, n);
    MulSign(Dot(a, a), Dot(b, b));
    if m == 0.0 || n == 0.0 {
      assert m == 0.0 ==> Normalised(a, m) == a;
      assert n == 0.0 ==> Normalised(b, n) == b;
      ZeroDot(Normalised(a, m), Normalised(b, n));
      MulSign(s, s);
    } else {
      DotOfNormalised(a, m, b, n);
      Quotient(x, norms);
      hide Mul, Sq, Dot;
      MulAssoc(m, n, s);
      SqOfProduct(Mul(m, n), s);
      SqOfProduct(m, n);
      CancelFactor(norms, Sq(s), x / norms);
    }
  }

  /** The similarity is the non-negative root of its square. */
  lemma SimilarityIsRoot(h: Hashing, s: seq<string>, t: seq<string>, m: real, n: real)
    requires IsNorm(m, Buckets(h, s)) && IsNorm(n, Buckets(h, t))
    ensures Similarity(h, s, t, m, n) >= 0.0
    ensures Sq(Similarity(h, s, t, m, n)) == Similarity2(h, s, t)
  {
    NormalisedNonNegative(h, s, m);
    NormalisedNonNegative(h, t, n);
    DotNonNegative(Normalised(Buckets(h, s), m), Normalised(Buckets(h, t), n));
    RootOfCosine2(Buckets(h, s), m, Buckets(h, t), n);
  }

  lemma Cosine2AtMostOne(q: seq<real>, d: seq<real>)
    requires |q| == |d|
    ensures Cosine2(q, d) <= 1.0
  {
    var norms, x := Mul(Dot(q, q), Dot(d, d)), Sq(Dot(q, d));
    CauchySchwarz(q, d);
    NormNonNegative(q);
    NormNonNegative(d);
    MulSign(Dot(q, q), Dot(d, d));
    if norms != 0.0 {
      Quotient(x, norms);
      assert Mul(norms, 1.0) == norms;
      CancelFactor(norms, x / norms, 1.0);
    }
  }

  /** Similarities lie between 0 and 1, for any two texts. */
  lemma CosineInUnit(h: Hashing, s: seq<string>, t: seq<string>, m: real, n: real)
    requires IsNorm(m, Buckets(h, s)) && IsNorm(n, Buckets(h, t))
    ensures 0.0 <= Similarity(h, s, t, m, n) <= 1.0
  {
    hide Similarity, Buckets, Dot;
    SimilarityIsRoot(h, s, t, m, n);
    Cosine2AtMostOne(Buckets(h, s), Buckets(h, t));
    assert Sq(1.0) == 1.0;
    SqOrder(Similarity(h, s, t, m, n), 1.0);
  }

  lemma {:induction false} DotPositive(v: seq<real>, k: nat)
    requires k < |v| && v[k] != 0.0
    ensures Dot(v, v) > 0.0
  {
    SqSign(v[0]);
    NormNonNegative(v[1..]);
    if k > 0 { DotPositive(v[1..], k - 1); }
  }

  /** A text with tokens is not the zero vector. */
  lemma NormPositive(h: Hashing, s: seq<string>)
    requires InRange(h) && s != []
    ensures Dot(Buckets(h, s), Buckets(h, s)) > 0.0
  {
    var k := h.bucket(s[|s| - 1]);
    assert CountIf(Hits(h, k), s) >= 1;
    DotPositive(Buckets(h, s), k);
  }

  /** A text with tokens has similarity 1 to itself, and any text similarity 0 to one without. */
  lemma CosineOfSelf(h: Hashing, s: seq<string>, n: real)
    requires InRange(h) && IsNorm(n, Buckets(h, s))
    ensures Similarity(h, s, s, n, n) == if s == [] then 0.0 else 1.0
  {
    hide Similarity, Buckets;
    var v, sim := Buckets(h, s), Similarity(h, s, s, n, n);
    SimilarityIsRoot(h, s, s, n, n);
    if s == [] {
      EmptyText(h);
      SqSign(sim);
    } else {
      NormPositive(h, s);
      Cosine2OfSelf(v);
      assert Sq(1.0) == 1.0;
      SqOrder(sim, 1.0);
      SqOrder(1.0, sim);
    }
  }

  lemma Cosine2OfSelf(v: seq<real>)
    requires Dot(v, v) > 0.0
    ensures Cosine2(v, v) == 1.0
  {
    var n := Sq(Dot(v, v));
    MulSign(Dot(v, v), Dot(v, v));
    Quotient(n, n);
    assert Mul(n, 1.0) == n;
    CancelFactor(n, n / n, 1.0);
  }

  lemma EmptyText(h: Hashing)
    ensures Similarity2(h, [], []) == 0.0
  {
    var v := Buckets(h, []);
    ZeroVector(v);
    MulSign(Dot(v, v), Dot(v, v));
  }

  lemma {:induction false} ZeroVector(v: seq<real>)
    requires forall i :: 0 <= i < |v| ==> v[i] == 0.0
    ensures Dot(v, v) == 0.0
  {
    if v != [] {
      MulSign(v[0], v[0]);
      ZeroVector(v[1..]);
    }
  }

  // ----- Ranking -----

  /** The tokens are those of the document text: title, keywords and content. */
  datatype Runbook = Runbook(slug: string, title: string, content: string, tokens: seq<string>)

  datatype Scored = Scored(runbook: Runbook, similarity2: real)

  /** similarity >= minimum. */
  predicate Meets(similarity2: real, minimum: real) {
    minimum <= 0.0 || similarity2 >= Sq(minimum)
  }

  /** By descending similarity, then by slug. */
  predicate Before(a: Scored, b: Scored) {
    a.similarity2 > b.similarity2 || (a.similarity2 == b.similarity2 && StringLe(a.runbook.slug, b.runbook.slug))
  }

  lemma BeforeIsTotal()
    ensures TotalPreorder(Before)
  {
    StringOrder();
  }

  function Score(h: Hashing, query: seq<string>, runbooks: seq<Runbook>): (scored: seq<Scored>)
    ensures |scored| == |runbooks|
    ensures forall i :: 0 <= i < |runbooks| ==>
              scored[i] == Scored(runbooks[i], Similarity2(h, query, runbooks[i].tokens))
  {
    seq(|runbooks|, i requires 0 <= i < |runbooks| =>
      Scored(runbooks[i], Similarity2(h, query, runbooks[i].tokens)))
  }

  function Qualifying(scored: seq<Scored>, minimum: real): (q: seq<Scored>)
    ensures forall x :: x in q <==> x in scored && Meets(x.similarity2, minimum)
  {
    if scored == [] then []
    else
      var init, last := scored[..|scored| - 1], scored[|scored| - 1];
      assert scored == init + [last];
      Qualifying(init, minimum) + (if Meets(last.similarity2, minimum) then [last] else [])
  }

  /** `s[:k]`, counting from the end when k is negative. */
  function Slice<T>(s: seq<T>, k: int): seq<T> {
    if k >= |s| then s else if k >= 0 then s[..k] else if |s| + k > 0 then s[..|s| + k] else []
  }

  function Retrieve(h: Hashing, query: seq<string>, runbooks: seq<Runbook>, topK: int, minimum: real): seq<Scored> {
    Slice(Sort(Before, Qualifying(Score(h, query, runbooks), minimum)), topK)
  }

  /** found is the beginning of all under le: in order, and nothing left out comes before it. */
  ghost predicate FirstOf<T(!new)>(le: (T, T) -> bool, found: seq<T>, all: multiset<T>) {
    && SortedBy(le, found)
    && multiset(found) <= all
    && (forall x, y :: x in found && y in all - multiset(found) ==> le(x, y))
  }

  lemma PrefixIsFirst<T(!new)>(le: (T, T) -> bool, sorted: seq<T>, n: nat)
    requires SortedBy(le, sorted) && n <= |sorted|
    ensures FirstOf(le, sorted[..n], multiset(sorted))
  {
    var found, rest := sorted[..n], sorted[n..];
    assert sorted == found + rest;
    assert multiset(sorted) - multiset(found) == multiset(rest);
    SortedParts(le, sorted, n);
  }

  lemma SortedParts<T(!new)>(le: (T, T) -> bool, sorted: seq<T>, n: nat)
    requires SortedBy(le, sorted) && n <= |sorted|
    ensures SortedBy(le, sorted[..n])
    ensures forall x, y :: x in sorted[..n] && y in sorted[n..] ==> le(x, y)
  {
    forall x, y | x in sorted[..n] && y in sorted[n..] ensures le(x, y) {
      var i :| 0 <= i < n && sorted[i] == x;
      var j :| n <= j < |sorted| && sorted[j] == y;
    }
  }

  lemma SliceIsPrefix<T>(s: seq<T>, k: int) returns (n: nat)
    ensures n <= |s| && Slice(s, k) == s[..n]
    ensures k >= 0 ==> n == if k < |s| then k else |s|
    ensures k < 0 ==> n == if |s| + k > 0 then |s| + k else 0
  {
    n := |Slice(s, k)|;
  }

  /** The runbooks that meet the threshold come back in order, and none left out belongs before them. */
  lemma RetrievalIsOptimal(h: Hashing, query: seq<string>, runbooks: seq<Runbook>, topK: int, minimum: real)
    ensures var found := Retrieve(h, query, runbooks, topK, minimum);
            var all := Qualifying(Score(h, query, runbooks), minimum);
            && FirstOf(Before, found, multiset(all))
            && (topK >= 0 ==> |found| == if topK < |all| then topK else |all|)
            && (topK < 0 ==> |found| == if |all| + topK > 0 then |all| + topK else 0)
  {
    hide Before, Score, Qualifying, Sort, Slice, FirstOf;
    var all := Qualifying(Score(h, query, runbooks), minimum);
    var sorted := Sort(Before, all);
    BeforeIsTotal();
    SortSorts(Before, all);
    var n := SliceIsPrefix(sorted, topK);
    PrefixIsFirst(Before, sorted, n);
  }

  // ----- Squares order as similarities do -----

  /** What the query knows of a runbook: its similarity, for the norms that `norm` gives. */
  function SimilarityTo(h: Hashing, norm: seq<real> -> real, query: seq<string>, b: Runbook): real {
    Similarity(h, query, b.tokens, norm(Buckets(h, query)), norm(Buckets(h, b.tokens)))
  }

  ghost predicate NormOf(h: Hashing, norm: seq<real> -> real, tokens: seq<string>) {
    IsNorm(norm(Buckets(h, tokens)), Buckets(h, tokens))
  }

  /** It gives the norms of the query and of the runbooks. */
  ghost predicate GivesNorms(h: Hashing, norm: seq<real> -> real, query: seq<string>, runbooks: seq<Runbook>) {
    NormOf(h, norm, query) && forall b :: b in runbooks ==> NormOf(h, norm, b.tokens)
  }

  /** By falling similarity, then by slug. */
  ghost predicate Precedes(h: Hashing, norm: seq<real> -> real, query: seq<string>, a: Runbook, b: Runbook) {
    var x, y := SimilarityTo(h, norm, query, a), SimilarityTo(h, norm, query, b);
    x > y || (x == y && StringLe(a.slug, b.slug))
  }

  lemma ToIsRoot(h: Hashing, norm: seq<real> -> real, query: seq<string>, b: Runbook)
    requires NormOf(h, norm, query) && NormOf(h, norm, b.tokens)
    ensures SimilarityTo(h, norm, query, b) >= 0.0
    ensures Sq(SimilarityTo(h, norm, query, b)) == Similarity2(h, query, b.tokens)
  {
    hide Similarity, Similarity2, Buckets, IsNorm;
    var v, w := Buckets(h, query), Buckets(h, b.tokens);
    SimilarityIsRoot(h, query, b.tokens, norm(v), norm(w));
  }

  lemma BeforeIsPrecedes(h: Hashing, norm: seq<real> -> real, query: seq<string>, a: Runbook, b: Runbook)
    requires NormOf(h, norm, query) && NormOf(h, norm, a.tokens) && NormOf(h, norm, b.tokens)
    ensures Before(Scored(a, Similarity2(h, query, a.tokens)), Scored(b, Similarity2(h, query, b.tokens))) <==>
            Precedes(h, norm, query, a, b)
  {
    hide SimilarityTo, Similarity2, StringLe, NormOf;
    ToIsRoot(h, norm, query, a);
    ToIsRoot(h, norm, query, b);
    SqOrder(SimilarityTo(h, norm, query, a), SimilarityTo(h, norm, query, b));
    SqOrder(SimilarityTo(h, norm, query, b), SimilarityTo(h, norm, query, a));
  }

  lemma MeetsIsThreshold(h: Hashing, norm: seq<real> -> real, query: seq<string>, b: Runbook, minimum: real)
    requires NormOf(h, norm, query) && NormOf(h, norm, b.tokens)
    ensures Meets(Similarity2(h, query, b.tokens), minimum) <==> SimilarityTo(h, norm, query, b) >= minimum
  {
    hide SimilarityTo, Similarity2, NormOf;
    ToIsRoot(h, norm, query, b);
    if minimum > 0.0 { SqOrder(minimum, SimilarityTo(h, norm, query, b)); }
  }

  /**
   Retrieval returns runbooks whose similarity meets the threshold, by falling similarity and then slug,
   and none that meets it and is left out precedes one returned.
   */
  lemma RetrievalBySimilarity(h: Hashing, norm: seq<real> -> real, query: seq<string>, runbooks: seq<Runbook>,
                              topK: int, minimum: real)
    requires GivesNorms(h, norm, query, runbooks)
    ensures var found := Retrieve(h, query, runbooks, topK, minimum);
            && (forall i, j :: 0 <= i < j < |found| ==> Precedes(h, norm, query, found[i].runbook, found[j].runbook))
            && (forall x :: x in found ==>
                  x.runbook in runbooks && SimilarityTo(h, norm, query, x.runbook) >= minimum)
            && (forall x, b :: x in found && b in runbooks && SimilarityTo(h, norm, query, b) >= minimum
                               && (forall y :: y in found ==> y.runbook != b) ==>
                  Precedes(h, norm, query, x.runbook, b))
  {
    hide Retrieve, SimilarityTo, Similarity2, Before, Precedes, Meets, NormOf;
    var found, scored := Retrieve(h, query, runbooks, topK, minimum), Score(h, query, runbooks);
    var all := Qualifying(scored, minimum);
    RetrievalIsOptimal(h, query, runbooks, topK, minimum);
    forall x | x in found
      ensures x in all && x.runbook in runbooks && x == Scored(x.runbook, Similarity2(h, query, x.runbook.tokens))
      ensures SimilarityTo(h, norm, query, x.runbook) >= minimum
    {
      assert x in multiset(all);
      MeetsIsThreshold(h, norm, query, x.runbook, minimum);
    }
    forall i, j | 0 <= i < j < |found| ensures Precedes(h, norm, query, found[i].runbook, found[j].runbook) {
      assert found[i] in found && found[j] in found;
      BeforeIsPrecedes(h, norm, query, found[i].runbook, found[j].runbook);
    }
    forall x, b | x in found && b in runbooks && SimilarityTo(h, norm, query, b) >= minimum
                  && (forall y :: y in found ==> y.runbook != b)
      ensures Precedes(h, norm, query, x.runbook, b)
    {
      var y := Scored(b, Similarity2(h, query, b.tokens));
      MeetsIsThreshold(h, norm, query, b, minimum);
      LeftOut(h, query, runbooks, minimum, found, b);
      BeforeIsPrecedes(h, norm, query, x.runbook, b);
    }
  }

  lemma LeftOut(h: Hashing, query: seq<string>, runbooks: seq<Runbook>, minimum: real, found: seq<Scored>, b: Runbook)
    requires b in runbooks && Meets(Similarity2(h, query, b.tokens), minimum)
    requires forall y :: y in found ==> y.runbook != b
    ensures Scored(b, Similarity2(h, query, b.tokens)) in
            multiset(Qualifying(Score(h, query, runbooks), minimum)) - multiset(found)
  {
    hide Similarity2, Meets, Qualifying, Score;
    var y, scored := Scored(b, Similarity2(h, query, b.tokens)), Score(h, query, runbooks);
    var i :| 0 <= i < |runbooks| && runbooks[i] == b;
    assert scored[i] == y;
    assert y in Qualifying(scored, minimum) && y !in found;
  }

  /** Entries that precede each other have the same slug and the same similarity. */
  lemma NoTies(a: Scored, b: Scored)
    requires Before(a, b) && Before(b, a)
    ensures a.runbook.slug == b.runbook.slug && a.similarity2 == b.similarity2
  {
    StringLeAntisymmetric(a.runbook.slug, b.runbook.slug);
  }

  // ----- The result is determined -----

  /** Entries with the same slug are the same. */
  ghost predicate SlugsDiffer(m: multiset<Scored>) {
    forall x, y :: x in m && y in m && x.runbook.slug == y.runbook.slug ==> x == y
  }

  lemma FirstOfLeast(found: seq<Scored>, m: multiset<Scored>, y: Scored)
    requires FirstOf(Before, found, m) && found != [] && y in m
    ensures Before(found[0], y)
  {
    hide Before;
    if y in m - multiset(found) {
      assert found[0] in found;
    } else {
      assert y in multiset(found);
      var i :| 0 <= i < |found| && found[i] == y;
      if i == 0 { BeforeSelf(y); }
    }
  }

  lemma BeforeSelf(x: Scored)
    ensures Before(x, x)
  {
    StringLeTotal(x.runbook.slug, x.runbook.slug);
  }

  lemma FirstOfRest(found: seq<Scored>, m: multiset<Scored>)
    requires FirstOf(Before, found, m) && found != []
    ensures FirstOf(Before, found[1..], m - multiset{found[0]})
  {
    hide Before;
    assert found == [found[0]] + found[1..];
    assert m - multiset{found[0]} - multiset(found[1..]) == m - multiset(found);
  }

  lemma {:induction false} FirstOfUnique(a: seq<Scored>, b: seq<Scored>, m: multiset<Scored>)
    requires FirstOf(Before, a, m) && FirstOf(Before, b, m) && |a| == |b| && SlugsDiffer(m)
    ensures a == b
  {
    hide FirstOf, Before;
    if a != [] {
      FirstInside(a, m);
      FirstInside(b, m);
      FirstOfLeast(a, m, b[0]);
      FirstOfLeast(b, m, a[0]);
      NoTies(a[0], b[0]);
      assert a[0] == b[0];
      FirstOfRest(a, m);
      FirstOfRest(b, m);
      FirstOfUnique(a[1..], b[1..], m - multiset{a[0]});
      assert a == [a[0]] + a[1..] && b == [b[0]] + b[1..];
    }
  }

  lemma FirstInside(found: seq<Scored>, m: multiset<Scored>)
    requires FirstOf(Before, found, m) && found != []
    ensures found[0] in m
  {
    assert found[0] in multiset(found);
  }

  ghost predicate DistinctSlugs(runbooks: seq<Runbook>) {
    forall i, j :: 0 <= i < j < |runbooks| ==> runbooks[i].slug != runbooks[j].slug
  }

  lemma QualifyingSlugs(h: Hashing, query: seq<string>, runbooks: seq<Runbook>, minimum: real)
    requires DistinctSlugs(runbooks)
    ensures SlugsDiffer(multiset(Qualifying(Score(h, query, runbooks), minimum)))
  {
    hide Similarity2, Meets, Qualifying;
    var scored, all := Score(h, query, runbooks), Qualifying(Score(h, query, runbooks), minimum);
    forall x: Scored, y: Scored | x in multiset(all) && y in multiset(all) && x.runbook.slug == y.runbook.slug
      ensures x == y
    {
      assert x in all && y in all;
      var i :| 0 <= i < |scored| && scored[i] == x;
      var j :| 0 <= j < |scored| && scored[j] == y;
      assert runbooks[i].slug == runbooks[j].slug;
    }
  }

  /** With distinct slugs, the first k qualifying runbooks in order are one list only: the one that is returned. */
  lemma RetrievalIsDetermined(h: Hashing, query: seq<string>, runbooks: seq<Runbook>, topK: int, minimum: real,
                              other: seq<Scored>)
    requires DistinctSlugs(runbooks)
    requires FirstOf(Before, other, multiset(Qualifying(Score(h, query, runbooks), minimum)))
    requires |other| == |Retrieve(h, query, runbooks, topK, minimum)|
    ensures other == Retrieve(h, query, runbooks, topK, minimum)
  {
    hide Retrieve, Score, Qualifying, Before;
    var all := Qualifying(Score(h, query, runbooks), minimum);
    RetrievalIsOptimal(h, query, runbooks, topK, minimum);
    QualifyingSlugs(h, query, runbooks, minimum);
    FirstOfUnique(other, Retrieve(h, query, runbooks, topK, minimum), multiset(all));
  }
}
