/** Sums and inner products of real sequences, with the Cauchy-Schwarz inequality. */
module Reals {

  function Sum(s: seq<real>): real {
    if s == [] then 0.0 else s[0] + Sum(s[1..])
  }

  function Dot(a: seq<real>, b: seq<real>): real
    requires |a| == |b|
  {
    if a == [] then 0.0 else Mul(a[0], b[0]) + Dot(a[1..], b[1..])
  }

  // Products by name: the solver replaces equals inside a function call, but not inside a product.
  function Mul(x: real, y: real): real {
    x * y
  }

  function Sq(x: real): real {
    Mul(x, x)
  }

  lemma MulSign(x: real, y: real)
    ensures x > 0.0 && y > 0.0 ==> Mul(x, y) > 0.0
    ensures x >= 0.0 && y >= 0.0 ==> Mul(x, y) >= 0.0
    ensures x < 0.0 && y < 0.0 ==> Mul(x, y) > 0.0
    ensures x > 0.0 && y < 0.0 ==> Mul(x, y) < 0.0
    ensures x == 0.0 || y == 0.0 ==> Mul(x, y) == 0.0
  {
    if x < 0.0 && y < 0.0 { assert Mul(x, y) == (-x) * (-y); }
    if x > 0.0 && y < 0.0 { assert -Mul(x, y) == x * (-y); }
  }

  lemma MulAdd(x: real, y: real, z: real)
    ensures Mul(x, y + z) == Mul(x, y) + Mul(x, z)
    ensures Mul(x, y - z) == Mul(x, y) - Mul(x, z)
    ensures Mul(x, y) == Mul(y, x)
  {
  }

  lemma MulAssoc(x: real, y: real, z: real)
    ensures Mul(x, Mul(y, z)) == Mul(Mul(x, y), z) == Mul(y, Mul(x, z))
  {
    assert x * (y * z) == (x * y) * z;
    assert x * (y * z) == y * (x * z);
  }

  lemma CancelFactor(n: real, x: real, y: real)
    requires n > 0.0
    ensures Mul(n, x) <= Mul(n, y) <==> x <= y
    ensures Mul(n, x) == Mul(n, y) <==> x == y
  {
    MulAdd(n, x, y);
    MulSign(n, x - y);
  }

  lemma Quotient(q: real, n: real)
    requires n != 0.0
    ensures Mul(n, q / n) == q
  {
  }

  lemma SqSign(x: real)
    ensures Sq(x) >= 0.0
    ensures Sq(x) <= 0.0 ==> x == 0.0
    ensures Sq(-x) == Sq(x)
  {
    MulSign(x, x);
    assert (-x) * (-x) == x * x;
  }

  lemma SqDifference(x: real, y: real)
    ensures Mul(y - x, y + x) == Sq(y) - Sq(x)
  {
  }

  /** On the non-negative side numbers compare as their squares do. */
  lemma SqOrder(x: real, y: real)
    requires x >= 0.0 && y >= 0.0
    ensures x <= y <==> Sq(x) <= Sq(y)
    ensures x < y <==> Sq(x) < Sq(y)
  {
    SqDifference(x, y);
    SqDifference(y, x);
    MulSign(y - x, y + x);
    MulSign(x - y, x + y);
  }

  lemma {:induction false} NormNonNegative(a: seq<real>)
    ensures Dot(a, a) >= 0.0
  {
    if a != [] {
      SqSign(a[0]);
      NormNonNegative(a[1..]);
    }
  }

  // ----- Cauchy-Schwarz -----

  // What the right side of the inductive step exceeds the left one by.
  function Excess(x: real, y: real, d: real, p: real, q: real): real {
    Mul(Sq(x), q) + Mul(Sq(y), p) - 2.0 * Mul(Mul(x, y), d)
  }

  lemma ExcessTimesP(x: real, y: real, d: real, p: real, q: real)
    ensures Mul(p, Excess(x, y, d, p, q)) == Sq(Mul(x, d) - Mul(y, p)) + Mul(Sq(x), Mul(p, q) - Sq(d))
  {
    var a, b, m := Mul(x, d), Mul(y, p), Mul(x, y);
    var e1, e2, e3 := Mul(Sq(x), q), Mul(Sq(y), p), Mul(m, d);
    assert Mul(p, e1) == Mul(Sq(x), Mul(p, q)) by { MulAssoc(p, Sq(x), q); }
    assert Mul(p, e2) == Sq(b) by { assert p * ((y * y) * p) == (y * p) * (y * p); }
    assert Mul(p, e3) == Mul(a, b) by { assert p * ((x * y) * d) == (x * d) * (y * p); }
    assert Mul(Sq(x), Sq(d)) == Sq(a) by { assert (x * x) * (d * d) == (x * d) * (x * d); }
    MulAdd(Sq(x), Mul(p, q), Sq(d));
    assert Sq(a - b) == Sq(a) - 2.0 * Mul(a, b) + Sq(b);
    assert Mul(p, e1 + e2 - 2.0 * e3) == Mul(p, e1) + Mul(p, e2) - 2.0 * Mul(p, e3);
  }

  lemma ExcessNonNegative(x: real, y: real, d: real, p: real, q: real)
    requires p >= 0.0 && q >= 0.0 && Sq(d) <= Mul(p, q)
    ensures Excess(x, y, d, p, q) >= 0.0
  {
    SqSign(x);
    if p == 0.0 {
      MulSign(p, q);
      SqSign(d);
      MulSign(Sq(x), q);
      MulSign(Sq(y), p);
      MulSign(Mul(x, y), d);
    } else {
      ExcessTimesP(x, y, d, p, q);
      SqSign(Mul(x, d) - Mul(y, p));
      MulSign(Sq(x), Mul(p, q) - Sq(d));
      MulSign(p, Excess(x, y, d, p, q));
    }
  }

  lemma MulSums(a: real, b: real, c: real, d: real)
    ensures Mul(a + b, c + d) == Mul(a, c) + Mul(a, d) + Mul(c, b) + Mul(b, d)
  {
  }

  lemma SqOfSum(a: real, b: real)
    ensures Sq(a + b) == Sq(a) + 2.0 * Mul(a, b) + Sq(b)
  {
  }

  lemma SqOfProduct(a: real, b: real)
    ensures Sq(Mul(a, b)) == Mul(Sq(a), Sq(b))
  {
    assert (a * b) * (a * b) == (a * a) * (b * b);
  }

  // The inductive step: adding one coordinate keeps the inequality.
  lemma CauchyStep(x: real, y: real, d: real, p: real, q: real)
    requires p >= 0.0 && q >= 0.0 && Sq(d) <= Mul(p, q)
    ensures Sq(Mul(x, y) + d) <= Mul(Sq(x) + p, Sq(y) + q)
  {
    hide Mul, Sq;
    MulSums(Sq(x), p, Sq(y), q);
    SqOfSum(Mul(x, y), d);
    SqOfProduct(x, y);
    ExcessNonNegative(x, y, d, p, q);
  }

  lemma {:induction false} CauchySchwarz(a: seq<real>, b: seq<real>)
    requires |a| == |b|
    ensures Sq(Dot(a, b)) <= Mul(Dot(a, a), Dot(b, b))
  {
    if a == [] {
      MulSign(0.0, 0.0);
    } else {
      var p, q, d := Dot(a[1..], a[1..]), Dot(b[1..], b[1..]), Dot(a[1..], b[1..]);
      assert Dot(a, b) == Mul(a[0], b[0]) + d && Dot(a, a) == Sq(a[0]) + p && Dot(b, b) == Sq(b[0]) + q;
      CauchySchwarz(a[1..], b[1..]);
      NormNonNegative(a[1..]);
      NormNonNegative(b[1..]);
      CauchyStep(a[0], b[0], d, p, q);
    }
  }

  // ----- Sums -----

  /** n times the number c. */
  function Constant(c: real, n: nat): (s: seq<real>)
    ensures |s| == n
  {
    if n == 0 then [] else [c] + Constant(c, n - 1)
  }

  lemma {:induction false} ConstantSums(c: real, n: nat)
    ensures Sum(Constant(c, n)) == Mul(n as real, c)
    ensures Dot(Constant(c, n), Constant(c, n)) == Mul(n as real, Sq(c))
  {
    if n > 0 {
      ConstantSums(c, n - 1);
      assert Constant(c, n)[1..] == Constant(c, n - 1);
    }
  }

  lemma {:induction false} SumIsDotOnes(a: seq<real>)
    ensures Dot(a, Constant(1.0, |a|)) == Sum(a)
  {
    if a != [] {
      assert Constant(1.0, |a|)[1..] == Constant(1.0, |a| - 1);
      SumIsDotOnes(a[1..]);
    }
  }

  /** The square of a sum is at most the number of terms times the sum of squares. */
  lemma SquareOfSum(a: seq<real>)
    ensures Sq(Sum(a)) <= Mul(|a| as real, Dot(a, a))
  {
    var ones, n := Constant(1.0, |a|), |a| as real;
    CauchySchwarz(a, ones);
    SumIsDotOnes(a);
    ConstantSums(1.0, |a|);
    assert Dot(ones, ones) == n;
    MulAdd(n, Dot(a, a), 0.0);
  }

  lemma {:induction false} DotSplit(a: seq<real>, b: seq<real>, c: seq<real>, d: seq<real>)
    requires |a| == |c| && |b| == |d|
    ensures Dot(a + b, c + d) == Dot(a, c) + Dot(b, d)
  {
    if a == [] { assert a + b == b && c + d == d; }
    else {
      assert (a + b)[1..] == a[1..] + b && (c + d)[1..] == c[1..] + d;
      DotSplit(a[1..], b, c[1..], d);
    }
  }

  lemma {:induction false} SumSplit(a: seq<real>, b: seq<real>)
    ensures Sum(a + b) == Sum(a) + Sum(b)
  {
    if a == [] { assert a + b == b; }
    else {
      assert (a + b)[1..] == a[1..] + b;
      SumSplit(a[1..], b);
    }
  }

  lemma SingletonSums(x: real)
    ensures Sum([x]) == x && Dot([x], [x]) == Sq(x)
  {
  }

  /** s without its k-th element. */
  function Without(s: seq<real>, k: nat): (t: seq<real>)
    requires k < |s|
    ensures |t| == |s| - 1
  {
    s[..k] + s[k + 1..]
  }

  lemma CutAt(s: seq<real>, k: nat)
    requires k < |s|
    ensures s == s[..k] + ([s[k]] + s[k + 1..])
    ensures Without(s, k) == s[..k] + s[k + 1..]
  {
  }

  lemma WithoutSums(s: seq<real>, k: nat)
    requires k < |s|
    ensures Sum(Without(s, k)) == Sum(s) - s[k]
    ensures Dot(Without(s, k), Without(s, k)) == Dot(s, s) - Sq(s[k])
  {
    hide *;
    CutAt(s, k);
    var l, x, r := s[..k], s[k], s[k + 1..];
    SingletonSums(x);
    SumSplit(l, r);
    SumSplit(l, [x] + r);
    SumSplit([x], r);
    DotSplit(l, r, l, r);
    DotSplit(l, [x] + r, l, [x] + r);
    DotSplit([x], r, [x], r);
  }
}
