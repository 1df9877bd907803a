/** Arithmetic modulo a prime and Lagrange interpolation at zero.

    Elements are integers and equality is congruence, so that sums and products stay plain integer
    expressions. */
module Field {

  predicate IsPrime(q: int) {
    q > 1 && forall d :: 1 < d < q ==> !Divides(d, q)
  }

  predicate Divides(d: int, n: int)
    requires d > 0
  {
    n % d == 0
  }

  predicate Cong(q: int, a: int, b: int)
    requires q > 0
  {
    (a - b) % q == 0
  }

  /** Quotient and remainder are unique. */
  lemma RemainderUnique(q: int, x: int, k: int, r: int)
    requires q > 0 && x == k * q + r && 0 <= r < q
    ensures x % q == r
  {
    var m := k - x / q;
    assert m * q == k * q - (x / q) * q;
    assert x == (x / q) * q + x % q;
    assert -q < m * q < q;
    MultipleIsLarge(m, q);
  }

  lemma MultipleIsLarge(m: int, q: int)
    requires q > 0
    ensures m >= 1 ==> m * q >= q
    ensures m <= -1 ==> m * q <= -q
    ensures m <= 0 ==> q * m <= 0
  {
  }

  lemma MultipleIsZero(q: int, k: int)
    requires q > 0
    ensures (k * q) % q == 0
  {
    RemainderUnique(q, k * q, k, 0);
  }

  lemma CongIntro(q: int, a: int, b: int, k: int)
    requires q > 0 && a - b == k * q
    ensures Cong(q, a, b)
  {
    MultipleIsZero(q, k);
  }

  /** The quotient that witnesses a congruence. */
  function Turns(q: int, a: int, b: int): (k: int)
    requires q > 0 && Cong(q, a, b)
    ensures a - b == k * q
  {
    (a - b) / q
  }

  lemma CongAdd(q: int, a: int, b: int, c: int, d: int)
    requires q > 0 && Cong(q, a, b) && Cong(q, c, d)
    ensures Cong(q, a + c, b + d)
  {
    var k, l := Turns(q, a, b), Turns(q, c, d);
    assert (a + c) - (b + d) == (k + l) * q;
    CongIntro(q, a + c, b + d, k + l);
  }

  lemma CongScale(q: int, a: int, b: int, c: int)
    requires q > 0 && Cong(q, a, b)
    ensures Cong(q, c * a, c * b)
  {
    var k := Turns(q, a, b);
    assert c * a - c * b == c * (a - b) == c * (k * q) == (c * k) * q;
    CongIntro(q, c * a, c * b, c * k);
  }

  lemma CongMul(q: int, a: int, b: int, c: int, d: int)
    requires q > 0 && Cong(q, a, b) && Cong(q, c, d)
    ensures Cong(q, a * c, b * d)
  {
    CongScale(q, a, b, c);
    CongScale(q, c, d, b);
    assert c * a == a * c && c * b == b * c;
    CongTrans(q, a * c, b * c, b * d);
  }

  lemma CongSym(q: int, a: int, b: int)
    requires q > 0 && Cong(q, a, b)
    ensures Cong(q, b, a)
  {
    var k := Turns(q, a, b);
    assert b - a == (-k) * q;
    CongIntro(q, b, a, -k);
  }

  lemma CongTrans(q: int, a: int, b: int, c: int)
    requires q > 0 && Cong(q, a, b) && Cong(q, b, c)
    ensures Cong(q, a, c)
  {
    var k, l := Turns(q, a, b), Turns(q, b, c);
    assert a - c == (k + l) * q;
    CongIntro(q, a, c, k + l);
  }

  lemma CongMod(q: int, a: int)
    requires q > 0
    ensures Cong(q, a % q, a) && 0 <= a % q < q
  {
    assert a % q - a == (-(a / q)) * q;
    CongIntro(q, a % q, a, -(a / q));
  }

  lemma CongUnique(q: int, a: int, b: int)
    requires q > 0 && Cong(q, a, b)
    ensures a % q == b % q
  {
    var k := Turns(q, a, b);
    assert a == (k + b / q) * q + b % q by {
      assert b == (b / q) * q + b % q;
      assert (k + b / q) * q == k * q + (b / q) * q;
    }
    RemainderUnique(q, a, k + b / q, b % q);
  }

  // ---- inverses ----

  /** Extended Euclid: the divisor, the two Bezout coefficients and the two cofactors. */
  function Euclid(a: nat, b: nat): (int, int, int, int, int)
    decreases b
  {
    if b == 0 then (a, 1, 0, 1, 0) else
      var (g, s, t, u, v) := Euclid(b, a % b);
      (g, t, s - (a / b) * t, (a / b) * u + v, u)
  }

  lemma EuclidStep(a: int, b: int, k: int, r: int, g: int, s: int, t: int, u: int, v: int)
    requires a == k * b + r && s * b + t * r == g && b == g * u && r == g * v
    ensures t * a + (s - k * t) * b == g && a == g * (k * u + v)
  {
    assert t * a == t * (k * b) + t * r;
    assert (s - k * t) * b == s * b - (k * t) * b;
    assert t * (k * b) == (k * t) * b;
    assert k * (g * u) == g * (k * u);
    assert g * (k * u + v) == g * (k * u) + g * v;
  }

  lemma {:induction false} EuclidCorrect(a: nat, b: nat)
    requires a > 0 || b > 0
    ensures var (g, s, t, u, v) := Euclid(a, b);
      g > 0 && s * a + t * b == g && a == g * u && b == g * v
    decreases b
  {
    if b != 0 {
      EuclidCorrect(b, a % b);
      var (g, s, t, u, v) := Euclid(b, a % b);
      EuclidStep(a, b, a / b, a % b, g, s, t, u, v);
    }
  }

  /** `a` is invertible modulo the prime. */
  predicate Unit(q: int, a: int)
    requires q > 0
  {
    a % q != 0
  }

  function Inverse(q: int, a: int): int
    requires q > 0
  {
    Euclid(a % q, q).1
  }

  lemma InverseCorrect(q: int, a: int)
    requires IsPrime(q) && Unit(q, a)
    ensures Cong(q, a * Inverse(q, a), 1)
  {
    var r := a % q;
    EuclidCorrect(r, q);
    var (g, s, t, u, v) := Euclid(r, q);
    assert g == 1 by {
      MultipleIsLarge(u, g);
      assert g <= r;
      MultipleIsZero(g, v);
      assert v * g == g * v;
      assert Divides(g, q);
    }
    assert r * s - 1 == (-t) * q;
    CongIntro(q, r * s, 1, -t);
    CongMod(q, a);
    CongSym(q, r, a);
    CongScale(q, a, r, s);
    assert s * a == a * s && s * r == r * s;
    CongTrans(q, a * s, r * s, 1);
  }

  lemma NotCongZeroOne(q: int)
    requires q > 1
    ensures !Cong(q, 0, 1) && !Cong(q, 1, 0)
  {
  }

  /** What has an inverse is a unit. */
  lemma UnitIntro(q: int, a: int, b: int)
    requires q > 1 && Cong(q, a * b, 1)
    ensures Unit(q, a)
  {
    if a % q == 0 {
      assert Cong(q, a, 0);
      CongScale(q, a, 0, b);
      assert b * a == a * b && b * 0 == 0;
      CongSym(q, a * b, 0);
      CongTrans(q, 0, a * b, 1);
      NotCongZeroOne(q);
    }
  }

  lemma UnitMul(q: int, a: int, b: int)
    requires IsPrime(q) && Unit(q, a) && Unit(q, b)
    ensures Unit(q, a * b)
  {
    InverseCorrect(q, a);
    InverseCorrect(q, b);
    var x, y := Inverse(q, a), Inverse(q, b);
    CongMul(q, a * x, 1, b * y, 1);
    assert (a * x) * (b * y) == (a * b) * (x * y);
    UnitIntro(q, a * b, x * y);
  }

  /** A unit factor cancels. */
  lemma Cancel(q: int, d: int, a: int, b: int)
    requires IsPrime(q) && Unit(q, d) && Cong(q, d * a, d * b)
    ensures Cong(q, a, b)
  {
    InverseCorrect(q, d);
    var i := Inverse(q, d);
    CongScale(q, d * a, d * b, i);
    CongScale(q, d * i, 1, a);
    CongScale(q, d * i, 1, b);
    assert i * (d * a) == a * (d * i) && i * (d * b) == b * (d * i) && a * 1 == a && b * 1 == b;
    CongSym(q, a * (d * i), a);
    CongTrans(q, a, a * (d * i), b * (d * i));
    CongTrans(q, a, b * (d * i), b);
  }

  lemma DifferenceIsUnit(q: int, a: int, b: int)
    requires q > 0 && 0 <= a < q && 0 <= b < q && a != b
    ensures Unit(q, a - b)
  {
    if a - b < 0 {
      assert (a - b) % q == a - b + q;
    }
  }

  // ---- polynomials ----

  /** `f[0] + f[1] x + f[2] x^2 + ...` */
  function Eval(f: seq<int>, x: int): int {
    if f == [] then 0 else f[0] + x * Eval(f[1..], x)
  }

  /** The quotient of `f - f(a)` by `x - a`. */
  function Quotient(f: seq<int>, a: int): (g: seq<int>)
    ensures |g| == if f == [] then 0 else |f| - 1
  {
    if |f| <= 1 then [] else [Eval(f[1..], a)] + Quotient(f[1..], a)
  }

  lemma {:induction false} Division(f: seq<int>, a: int, x: int)
    ensures Eval(f, x) == Eval(f, a) + (x - a) * Eval(Quotient(f, a), x)
  {
    if |f| == 1 {
      assert f[1..] == [];
    } else if |f| > 1 {
      Division(f[1..], a, x);
      var e, g := Eval(f[1..], a), Eval(Quotient(f[1..], a), x);
      assert Quotient(f, a)[1..] == Quotient(f[1..], a);
      assert Eval(Quotient(f, a), x) == e + x * g;
      assert x * (e + (x - a) * g) == a * e + (x - a) * (e + x * g);
    }
  }

  // ---- Lagrange coefficients at zero (RFC 9591, section 4.2) ----

  function Numerator(xs: seq<int>, x: int): int {
    if xs == [] then 1 else
      var y := xs[|xs| - 1];
      Numerator(xs[..|xs| - 1], x) * (if y == x then 1 else y)
  }

  function Denominator(xs: seq<int>, x: int): int {
    if xs == [] then 1 else
      var y := xs[|xs| - 1];
      Denominator(xs[..|xs| - 1], x) * (if y == x then 1 else y - x)
  }

  function Lambda(q: int, xs: seq<int>, x: int): int
    requires q > 0
  {
    Numerator(xs, x) * Inverse(q, Denominator(xs, x))
  }

  /** Distinct nonzero points of the field. */
  predicate Points(q: int, xs: seq<int>) {
    && (forall i :: 0 <= i < |xs| ==> 0 < xs[i] < q)
    && (forall i, j :: 0 <= i < j < |xs| ==> xs[i] != xs[j])
  }

  lemma Regroup(a: int, b: int, c: int)
    ensures (a * b) * c == a * (b * c) && a * b == b * a
  {
  }

  lemma {:induction false} NumeratorFront(b: int, xs: seq<int>, x: int)
    ensures Numerator([b] + xs, x) == (if b == x then 1 else b) * Numerator(xs, x)
  {
    var all := [b] + xs;
    if xs == [] {
      assert all[..0] == [];
    } else {
      var front, y := xs[..|xs| - 1], xs[|xs| - 1];
      assert all[..|all| - 1] == [b] + front;
      NumeratorFront(b, front, x);
      Regroup(if b == x then 1 else b, Numerator(front, x), if y == x then 1 else y);
    }
  }

  lemma {:induction false} DenominatorFront(b: int, xs: seq<int>, x: int)
    ensures Denominator([b] + xs, x) == (if b == x then 1 else b - x) * Denominator(xs, x)
  {
    var all := [b] + xs;
    if xs == [] {
      assert all[..0] == [];
    } else {
      var front, y := xs[..|xs| - 1], xs[|xs| - 1];
      assert all[..|all| - 1] == [b] + front;
      DenominatorFront(b, front, x);
      Regroup(if b == x then 1 else b - x, Denominator(front, x), if y == x then 1 else y - x);
    }
  }

  lemma {:induction false} DenominatorIsUnit(q: int, xs: seq<int>, x: int)
    requires IsPrime(q) && Points(q, xs) && 0 < x < q
    ensures Unit(q, Denominator(xs, x))
  {
    if xs == [] {
      assert 1 % q == 1;
    } else {
      var y := xs[|xs| - 1];
      DenominatorIsUnit(q, xs[..|xs| - 1], x);
      if y != x {
        DifferenceIsUnit(q, y, x);
        UnitMul(q, Denominator(xs[..|xs| - 1], x), y - x);
      } else {
        assert Denominator(xs, x) == Denominator(xs[..|xs| - 1], x);
      }
    }
  }

  /** Adding the point `a` multiplies the coefficient of `x` by `a / (a - x)`. */
  lemma CoefficientStep(q: int, n: int, d: int, a: int, x: int)
    requires IsPrime(q) && Unit(q, d) && Unit(q, a - x)
    ensures Cong(q, (n * a * Inverse(q, d * (a - x))) * (x - a), (-a) * (n * Inverse(q, d)))
  {
    UnitMul(q, d, a - x);
    var e := d * (a - x);
    var i, j := Inverse(q, e), Inverse(q, d);
    InverseCorrect(q, e);
    InverseCorrect(q, d);
    // Multiply both sides by d and compare with -n a.
    CongScale(q, e * i, 1, -(n * a));
    CongScale(q, d * j, 1, -(n * a));
    assert d * ((n * a * i) * (x - a)) == -(n * a) * (e * i) by {
      assert e * i == d * (a - x) * i;
      assert d * ((n * a * i) * (x - a)) == (n * a) * (d * (x - a) * i);
      assert d * (x - a) * i == -(d * (a - x) * i);
    }
    assert d * ((-a) * (n * j)) == -(n * a) * (d * j);
    CongSym(q, -(n * a) * (d * j), -(n * a) * 1);
    CongTrans(q, -(n * a) * (e * i), -(n * a) * 1, -(n * a) * (d * j));
    Cancel(q, d, (n * a * i) * (x - a), (-a) * (n * j));
  }

  lemma DropLast(q: int, s: seq<int>, a: int, x: int)
    requires IsPrime(q) && Points(q, s + [a]) && x in s
    ensures Cong(q, Lambda(q, s + [a], x) * (x - a), (-a) * Lambda(q, s, x))
  {
    var i :| 0 <= i < |s| && s[i] == x;
    assert (s + [a])[i] == x && (s + [a])[|s|] == a && (s + [a])[..|s|] == s;
    assert forall k :: 0 <= k < |s| ==> s[k] == (s + [a])[k];
    DenominatorIsUnit(q, s, x);
    DifferenceIsUnit(q, a, x);
    CoefficientStep(q, Numerator(s, x), Denominator(s, x), a, x);
  }

  lemma DropFirst(q: int, b: int, s: seq<int>, x: int)
    requires IsPrime(q) && Points(q, [b] + s) && x in s
    ensures Cong(q, Lambda(q, [b] + s, x) * (x - b), (-b) * Lambda(q, s, x))
  {
    var i :| 0 <= i < |s| && s[i] == x;
    assert ([b] + s)[i + 1] == x && ([b] + s)[0] == b;
    assert forall k :: 0 <= k < |s| ==> s[k] == ([b] + s)[k + 1];
    DenominatorIsUnit(q, s, x);
    DifferenceIsUnit(q, b, x);
    NumeratorFront(b, s, x);
    DenominatorFront(b, s, x);
    Regroup(b, Numerator(s, x), 1);
    Regroup(b - x, Denominator(s, x), 1);
    CoefficientStep(q, Numerator(s, x), Denominator(s, x), b, x);
  }

  // ---- interpolation ----

  lemma PointsSub(q: int, s: seq<int>, a: int)
    requires Points(q, s + [a])
    ensures Points(q, s) && 0 < a < q && a !in s
  {
    assert (s + [a])[|s|] == a;
    assert forall k :: 0 <= k < |s| ==> s[k] == (s + [a])[k];
  }

  lemma PointsTail(q: int, b: int, s: seq<int>)
    requires Points(q, [b] + s)
    ensures Points(q, s) && 0 < b < q && b !in s
  {
    assert ([b] + s)[0] == b;
    assert forall k :: 0 <= k < |s| ==> s[k] == ([b] + s)[k + 1];
  }

  /** `lambda(x) * f(x)` summed over `xs`, with the coefficients of the point set `all`. */
  function Plain(q: int, all: seq<int>, xs: seq<int>, f: seq<int>): int
    requires q > 0
  {
    if xs == [] then 0 else
      var x := xs[|xs| - 1];
      Plain(q, all, xs[..|xs| - 1], f) + Lambda(q, all, x) * Eval(f, x)
  }

  /** `lambda(x) * (x - c) * f(x)` summed over `xs`. */
  function Shifted(q: int, all: seq<int>, xs: seq<int>, c: int, f: seq<int>): int
    requires q > 0
  {
    if xs == [] then 0 else
      var x := xs[|xs| - 1];
      Shifted(q, all, xs[..|xs| - 1], c, f) + Lambda(q, all, x) * (x - c) * Eval(f, x)
  }

  const ONE: seq<int> := [1]

  lemma EvalOne(x: int)
    ensures Eval(ONE, x) == 1
  {
    assert ONE[1..] == [];
    assert x * 0 == 0;
  }

  lemma WeighDivision(l: int, c: int, d: int, e: int)
    ensures l * (c + d * e) == c * l + l * d * e
  {
    assert l * (d * e) == l * d * e;
  }

  lemma WeighDifference(l: int, x: int, a: int, b: int)
    ensures l * (x - a) == l * (x - b) + (b - a) * l
  {
  }

  lemma Distribute(c: int, a: int, b: int)
    ensures c * (a + b) == c * a + c * b
  {
  }

  /** Division by `x - a`, summed. */
  lemma {:induction false} PlainDivision(q: int, all: seq<int>, xs: seq<int>, f: seq<int>, a: int)
    requires q > 0
    ensures Plain(q, all, xs, f) == Eval(f, a) * Plain(q, all, xs, ONE) + Shifted(q, all, xs, a, Quotient(f, a))
  {
    if xs != [] {
      var front, x := xs[..|xs| - 1], xs[|xs| - 1];
      PlainDivision(q, all, front, f, a);
      Division(f, a, x);
      EvalOne(x);
      var l := Lambda(q, all, x);
      WeighDivision(l, Eval(f, a), x - a, Eval(Quotient(f, a), x));
      Distribute(Eval(f, a), Plain(q, all, front, ONE), l);
    }
  }

  lemma {:induction false} ShiftDifference(q: int, all: seq<int>, xs: seq<int>, a: int, b: int)
    requires q > 0
    ensures Shifted(q, all, xs, a, ONE) == Shifted(q, all, xs, b, ONE) + (b - a) * Plain(q, all, xs, ONE)
  {
    if xs != [] {
      var front, x := xs[..|xs| - 1], xs[|xs| - 1];
      ShiftDifference(q, all, front, a, b);
      EvalOne(x);
      var l := Lambda(q, all, x);
      WeighDifference(l, x, a, b);
      Distribute(b - a, Plain(q, all, front, ONE), l);
    }
  }

  /** At every point of `xs`, leaving `a` out of `all` gives the coefficients of `s`. */
  ghost predicate Drops(q: int, all: seq<int>, s: seq<int>, a: int, xs: seq<int>)
    requires q > 0
  {
    forall i :: 0 <= i < |xs| ==> Cong(q, Lambda(q, all, xs[i]) * (xs[i] - a), (-a) * Lambda(q, s, xs[i]))
  }

  lemma ScaleTerm(q: int, u: int, c: int, v: int, e: int)
    requires q > 0 && Cong(q, u, c * v)
    ensures Cong(q, u * e, c * (v * e))
  {
    CongScale(q, u, c * v, e);
    Regroup(e, u, 1);
    Regroup(e, c * v, 1);
    Regroup(c, v, e);
  }

  lemma AddTerm(q: int, s: int, c: int, t: int, u: int, v: int)
    requires q > 0 && Cong(q, s, c * t) && Cong(q, u, c * v)
    ensures Cong(q, s + u, c * (t + v))
  {
    CongAdd(q, s, c * t, u, c * v);
    Distribute(c, t, v);
  }

  /** Weighting by `x - a` removes the point `a`. */
  lemma {:induction false} ShiftedDrops(q: int, all: seq<int>, s: seq<int>, a: int, xs: seq<int>, f: seq<int>)
    requires q > 0 && Drops(q, all, s, a, xs)
    ensures Cong(q, Shifted(q, all, xs, a, f), (-a) * Plain(q, s, xs, f))
  {
    if xs != [] {
      var front, x := xs[..|xs| - 1], xs[|xs| - 1];
      ShiftedDrops(q, all, s, a, front, f);
      var e := Eval(f, x);
      ScaleTerm(q, Lambda(q, all, x) * (x - a), -a, Lambda(q, s, x), e);
      AddTerm(q, Shifted(q, all, front, a, f), -a, Plain(q, s, front, f),
              Lambda(q, all, x) * (x - a) * e, Lambda(q, s, x) * e);
    }
  }

  lemma {:induction false} ShiftedFront(q: int, all: seq<int>, b: int, xs: seq<int>, c: int, f: seq<int>)
    requires q > 0
    ensures Shifted(q, all, [b] + xs, c, f) == Lambda(q, all, b) * (b - c) * Eval(f, b) + Shifted(q, all, xs, c, f)
  {
    var ys := [b] + xs;
    if xs == [] {
      assert ys[..0] == [];
    } else {
      assert ys[..|ys| - 1] == [b] + xs[..|xs| - 1];
      ShiftedFront(q, all, b, xs[..|xs| - 1], c, f);
    }
  }

  lemma NoWeight(l: int, a: int, e: int)
    ensures l * (a - a) * e == 0
  {
  }

  lemma ShiftedByLast(q: int, s: seq<int>, a: int, f: seq<int>)
    requires IsPrime(q) && Points(q, s + [a])
    ensures Cong(q, Shifted(q, s + [a], s + [a], a, f), (-a) * Plain(q, s, s, f))
  {
    forall i | 0 <= i < |s| ensures Cong(q, Lambda(q, s + [a], s[i]) * (s[i] - a), (-a) * Lambda(q, s, s[i])) {
      DropLast(q, s, a, s[i]);
    }
    ShiftedDrops(q, s + [a], s, a, s, f);
    assert (s + [a])[..|s|] == s;
    NoWeight(Lambda(q, s + [a], a), a, Eval(f, a));
  }

  lemma ShiftedByFirst(q: int, b: int, s: seq<int>, f: seq<int>)
    requires IsPrime(q) && Points(q, [b] + s)
    ensures Cong(q, Shifted(q, [b] + s, [b] + s, b, f), (-b) * Plain(q, s, s, f))
  {
    forall i | 0 <= i < |s| ensures Cong(q, Lambda(q, [b] + s, s[i]) * (s[i] - b), (-b) * Lambda(q, s, s[i])) {
      DropFirst(q, b, s, s[i]);
    }
    ShiftedDrops(q, [b] + s, s, b, s, f);
    ShiftedFront(q, [b] + s, b, s, b, f);
    NoWeight(Lambda(q, [b] + s, b), b, Eval(f, b));
  }

  /** The coefficients at zero sum to one. */
  lemma {:induction false} CoefficientsSumToOne(q: int, xs: seq<int>)
    requires IsPrime(q) && Points(q, xs) && xs != []
    ensures Cong(q, Plain(q, xs, xs, ONE), 1)
    decreases |xs|
  {
    var a, b := xs[|xs| - 1], xs[0];
    if |xs| == 1 {
      SingleCoefficient(q, a);
      assert xs == [a];
    } else {
      var s, r := xs[..|xs| - 1], xs[1..];
      assert xs == s + [a] && xs == [b] + r;
      PointsSub(q, s, a);
      PointsTail(q, b, r);
      CoefficientsSumToOne(q, s);
      CoefficientsSumToOne(q, r);
      ShiftedByLast(q, s, a, ONE);
      ShiftedByFirst(q, b, r, ONE);
      ShiftDifference(q, xs, xs, a, b);
      SumToOneAlgebra(q, Shifted(q, xs, xs, a, ONE), Shifted(q, xs, xs, b, ONE), Plain(q, xs, xs, ONE), a, b,
                      Plain(q, s, s, ONE), Plain(q, r, r, ONE));
    }
  }

  lemma SingleCoefficient(q: int, a: int)
    requires IsPrime(q)
    ensures Cong(q, Plain(q, [a], [a], ONE), 1)
  {
    assert [a][..0] == [];
    assert Numerator([a], a) == 1 && Denominator([a], a) == 1;
    assert 1 % q == 1;
    InverseCorrect(q, 1);
    EvalOne(a);
    assert Plain(q, [a], [a], ONE) == 0 + Lambda(q, [a], a) * 1;
  }

  lemma SumToOneAlgebra(q: int, u: int, w: int, sum: int, a: int, b: int, onS: int, onR: int)
    requires IsPrime(q) && 0 < a < q && 0 < b < q && a != b
    requires Cong(q, u, (-a) * onS) && Cong(q, w, (-b) * onR) && Cong(q, onS, 1) && Cong(q, onR, 1)
    requires u == w + (b - a) * sum
    ensures Cong(q, sum, 1)
  {
    CongScale(q, onS, 1, -a);
    CongTrans(q, u, (-a) * onS, -a);
    CongScale(q, onR, 1, -b);
    CongTrans(q, w, (-b) * onR, -b);
    CongScale(q, w, -b, -1);
    CongAdd(q, u, -a, -1 * w, -1 * -b);
    assert u + -1 * w == (b - a) * sum;
    assert -a + -1 * -b == (b - a) * 1;
    DifferenceIsUnit(q, b, a);
    Cancel(q, b - a, sum, 1);
  }

  /** Interpolation at zero: for every polynomial with at most as many coefficients as there are
      points, the weighted values at the points sum to its value at zero. */
  lemma {:induction false} Interpolation(q: int, xs: seq<int>, f: seq<int>)
    requires IsPrime(q) && Points(q, xs) && |f| <= |xs|
    ensures Cong(q, Plain(q, xs, xs, f), Eval(f, 0))
    decreases |xs|
  {
    if xs != [] {
      var s, a := xs[..|xs| - 1], xs[|xs| - 1];
      assert xs == s + [a];
      PointsSub(q, s, a);
      var g := Quotient(f, a);
      Interpolation(q, s, g);
      CoefficientsSumToOne(q, xs);
      ShiftedByLast(q, s, a, g);
      InterpolationStep(q, xs, s, a, f);
    }
  }

  lemma InterpolationStep(q: int, xs: seq<int>, s: seq<int>, a: int, f: seq<int>)
    requires q > 0 && Cong(q, Plain(q, xs, xs, ONE), 1)
    requires Cong(q, Shifted(q, xs, xs, a, Quotient(f, a)), (-a) * Plain(q, s, s, Quotient(f, a)))
    requires Cong(q, Plain(q, s, s, Quotient(f, a)), Eval(Quotient(f, a), 0))
    ensures Cong(q, Plain(q, xs, xs, f), Eval(f, 0))
  {
    var g := Quotient(f, a);
    var onS, rest, g0, f0, c := Plain(q, s, s, g), Shifted(q, xs, xs, a, g), Eval(g, 0), Eval(f, 0), Eval(f, a);
    var ones, total := Plain(q, xs, xs, ONE), Plain(q, xs, xs, f);
    assert total == c * ones + rest by { PlainDivision(q, xs, xs, f, a); }
    assert f0 == c + (0 - a) * g0 by { Division(f, a, 0); }
    InterpolationAlgebra(q, total, c, ones, rest, a, onS, g0, f0);
  }

  lemma InterpolationAlgebra(q: int, total: int, c: int, ones: int, rest: int, a: int, onS: int, g0: int, f0: int)
    requires q > 0 && total == c * ones + rest && Cong(q, ones, 1)
    requires Cong(q, rest, (-a) * onS) && Cong(q, onS, g0) && f0 == c + (0 - a) * g0
    ensures Cong(q, total, f0)
  {
    CongScale(q, ones, 1, c);
    CongScale(q, onS, g0, -a);
    CongTrans(q, rest, (-a) * onS, (-a) * g0);
    CongAdd(q, c * ones, c * 1, rest, (-a) * g0);
  }
}
